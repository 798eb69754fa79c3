// Scene validation: rule checks over a scene definition that accumulate
// issues, each an ERROR or a WARNING with the place it concerns, into a
// result that stays valid until the first error is added. The engine's
// message texts are modelled by a `Rule` naming the check (with the object
// index a message quotes) and a `Location` naming the field or object.

module Validation {
  import opened Objects
  import opened SceneData
  import SceneManagement

  datatype Severity = WARNING | ERROR

  /** "scene.name", "scene.transitionTrigger", "world", "camera.followSpeed",
      "playerSpawn", "obstacle[i]", "collectible[i]", "enemy[i]",
      "obstacles", "collectibles", "enemies". */
  datatype Location =
    | SceneName | TriggerField | WorldField | CameraSpeed | SpawnField
    | ObstacleAt(i: nat) | CollectibleAt(i: nat) | EnemyAt(i: nat)
    | ObstacleList | CollectibleList | EnemyList

  datatype Rule =
    | EmptyName | LongName | NoTrigger | UnknownTrigger(trigger: string)
    | NonPositiveWorld | SmallWorld | LargeWorld | NonPositiveCameraSpeed | FastCamera
    | SpawnOutside | SpawnInObstacle(obstacle: nat)
    | NonPositiveObstacle | ObstacleOutside | SmallObstacle | LargeObstacle
    | NoCollectibles | CollectibleOutside | CollectibleInObstacle(obstacle: nat) | ManyCollectibles
    | NoEnemies | EnemyOutside | NonPositiveEnemySpeed | FastEnemy | EnemyInObstacle(obstacle: nat)
    | CircleWithoutRadius | IdenticalPatrolPoints | ManyEnemies
    | ObstaclesOverlapping(i: nat, j: nat) | CollectiblesTooClose(i: nat, j: nat)
    | MayBeUnreachable

  datatype Issue = Issue(severity: Severity, rule: Rule, location: Location)

  /** The number of issues of one severity. */
  function Count(issues: seq<Issue>, severity: Severity): (n: nat)
    ensures n <= |issues|
  {
    if issues == [] then 0
    else Count(issues[..|issues| - 1], severity) + (if issues[|issues| - 1].severity == severity then 1 else 0)
  }

  /** No issue is an error. */
  predicate ErrorFree(issues: seq<Issue>)
  {
    forall x :: x in issues ==> x.severity != ERROR
  }

  predicate Distinct(issues: seq<Issue>)
  {
    forall p, q :: 0 <= p < q < |issues| ==> issues[p] != issues[q]
  }

  /** Every issue is counted once, as an error or as a warning. */
  lemma {:induction false} CountsAddUp(issues: seq<Issue>)
    ensures Count(issues, ERROR) + Count(issues, WARNING) == |issues|
  {
    if issues != [] {
      CountsAddUp(issues[..|issues| - 1]);
    }
  }

  /** The error count is zero exactly when no issue is an error. */
  lemma {:induction false} ErrorFreeCount(issues: seq<Issue>)
    ensures ErrorFree(issues) <==> Count(issues, ERROR) == 0
  {
    if issues != [] {
      var init := issues[..|issues| - 1];
      ErrorFreeCount(init);
      assert issues == init + [issues[|issues| - 1]];
    }
  }

  /** SceneValidationResult: valid until an error is added. */
  class ValidationResult {
    var isValid: bool
    var issues: seq<Issue>

    /** The result is valid exactly when it holds no error. */
    ghost predicate Valid()
      reads this
    {
      isValid <==> Count(issues, ERROR) == 0
    }

    /** A fresh result is valid and has no issues. */
    constructor ()
      ensures isValid && issues == [] && Valid()
    {
      isValid := true;
      issues := [];
    }

    /** addError: an ERROR issue is appended and the result is invalid. */
    method AddError(rule: Rule, location: Location)
      modifies this
      ensures issues == old(issues) + [Issue(ERROR, rule, location)]
      ensures !isValid && Valid()
    {
      issues := issues + [Issue(ERROR, rule, location)];
      isValid := false;
      assert issues[..|issues| - 1] == old(issues);
    }

    /** addWarning: a WARNING issue is appended; validity is kept. */
    method AddWarning(rule: Rule, location: Location)
      modifies this
      ensures issues == old(issues) + [Issue(WARNING, rule, location)]
      ensures isValid == old(isValid)
      ensures old(Valid()) ==> Valid()
    {
      issues := issues + [Issue(WARNING, rule, location)];
      assert issues[..|issues| - 1] == old(issues);
    }

    /** getErrorCount. */
    method GetErrorCount() returns (count: nat)
      ensures count == Count(issues, ERROR)
      ensures Valid() ==> (isValid <==> count == 0)
    {
      count := 0;
      var k := 0;
      while k < |issues|
        invariant 0 <= k <= |issues|
        invariant count == Count(issues[..k], ERROR)
      {
        assert issues[..k + 1][..k] == issues[..k];
        if issues[k].severity == ERROR {
          count := count + 1;
        }
        k := k + 1;
      }
      assert issues[..k] == issues;
    }

    /** getWarningCount. */
    method GetWarningCount() returns (count: nat)
      ensures count == Count(issues, WARNING)
      ensures count + Count(issues, ERROR) == |issues|
    {
      count := 0;
      var k := 0;
      while k < |issues|
        invariant 0 <= k <= |issues|
        invariant count == Count(issues[..k], WARNING)
      {
        assert issues[..k + 1][..k] == issues[..k];
        if issues[k].severity == WARNING {
          count := count + 1;
        }
        k := k + 1;
      }
      assert issues[..k] == issues;
      CountsAddUp(issues);
    }
  }

  /** isPointInObstacle: the obstacle's edges belong to it. */
  predicate IsPointInObstacle(p: Vec2, o: ObstacleData)
  {
    p.x >= o.x && p.x <= o.x + o.width && p.y >= o.y && p.y <= o.y + o.height
  }

  /** doObstaclesOverlap: neither lies strictly to one side of the other. */
  predicate DoObstaclesOverlap(a: ObstacleData, b: ObstacleData)
  {
    !(a.x + a.width < b.x || b.x + b.width < a.x || a.y + a.height < b.y || b.y + b.height < a.y)
  }

  /** A position outside [0, width] x [0, height]. */
  predicate Outside(x: real, y: real, world: WorldSettings)
  {
    x < 0.0 || y < 0.0 || x > world.width || y > world.height
  }

  /** One test of a validator: the issue it reports and whether its
      condition holds. A validator's `if` statements, taken in order, are
      a sequence of checks. */
  datatype Check = Check(raised: bool, issue: Issue)

  /** The issues of the checks whose condition holds, in check order. */
  function Raised(checks: seq<Check>): seq<Issue>
  {
    if checks == [] then []
    else Raised(checks[..|checks| - 1])
         + (if checks[|checks| - 1].raised then [checks[|checks| - 1].issue] else [])
  }

  /** validateBasicProperties. */
  function BasicChecks(d: SceneDefinition): seq<Check>
  {
    [ Check(d.name == "", Issue(ERROR, EmptyName, SceneName)),
      Check(|d.name| > 50, Issue(WARNING, LongName, SceneName)),
      Check(d.transitionTrigger == "", Issue(WARNING, NoTrigger, TriggerField)),
      Check(d.transitionTrigger != "" && d.transitionTrigger != CollectiblesComplete
            && d.transitionTrigger != EnemiesDefeat && d.transitionTrigger != Manual,
            Issue(WARNING, UnknownTrigger(d.transitionTrigger), TriggerField)) ]
  }

  /** validateWorldSettings. */
  function WorldChecks(d: SceneDefinition): seq<Check>
  {
    [ Check(d.world.width <= 0.0 || d.world.height <= 0.0, Issue(ERROR, NonPositiveWorld, WorldField)),
      Check(d.world.width < 800.0 || d.world.height < 600.0, Issue(WARNING, SmallWorld, WorldField)),
      Check(d.world.width > 10000.0 || d.world.height > 10000.0, Issue(WARNING, LargeWorld, WorldField)),
      Check(d.camera.followSpeed <= 0.0, Issue(ERROR, NonPositiveCameraSpeed, CameraSpeed)),
      Check(d.camera.followSpeed > 50.0, Issue(WARNING, FastCamera, CameraSpeed)) ]
  }

  /** Which object a point is checked against the obstacles for. */
  datatype Probe = SpawnProbe | CollectibleProbe(i: nat) | EnemyProbe(i: nat)

  /** The issue raised when the probe's point lies in obstacle `j`: an
      error for the spawn point and for a collectible, a warning for an
      enemy. */
  function HitIssue(probe: Probe, j: nat): Issue
  {
    match probe
    case SpawnProbe => Issue(ERROR, SpawnInObstacle(j), SpawnField)
    case CollectibleProbe(i) => Issue(ERROR, CollectibleInObstacle(j), CollectibleAt(i))
    case EnemyProbe(i) => Issue(WARNING, EnemyInObstacle(j), EnemyAt(i))
  }

  /** The loop over the obstacles: one check per obstacle, raised when it
      contains `p`. */
  function HitChecks(probe: Probe, p: Vec2, obstacles: seq<ObstacleData>): (checks: seq<Check>)
    ensures |checks| == |obstacles|
  {
    seq(|obstacles|, j requires 0 <= j < |obstacles| =>
      Check(IsPointInObstacle(p, obstacles[j]), HitIssue(probe, j)))
  }

  function SpawnPoint(s: PlayerSpawn): Vec2 { Vec2(s.x + 25.0, s.y + 25.0) }
  function CollectiblePoint(c: CollectibleData): Vec2 { Vec2(c.x + 15.0, c.y + 15.0) }
  function EnemyPoint(e: EnemyData): Vec2 { Vec2(e.x + 25.0, e.y + 25.0) }

  /** validatePlayerSpawn. */
  function SpawnChecks(d: SceneDefinition): seq<Check>
  {
    [Check(Outside(d.playerSpawn.x, d.playerSpawn.y, d.world), Issue(ERROR, SpawnOutside, SpawnField))]
    + HitChecks(SpawnProbe, SpawnPoint(d.playerSpawn), d.obstacles)
  }

  /** The checks of validateObstacles for obstacle `i`. */
  function ObstacleChecks(d: SceneDefinition, i: nat): seq<Check>
    requires i < |d.obstacles|
  {
    var o := d.obstacles[i];
    [ Check(o.width <= 0.0 || o.height <= 0.0, Issue(ERROR, NonPositiveObstacle, ObstacleAt(i))),
      Check(o.x < 0.0 || o.y < 0.0 || o.x + o.width > d.world.width || o.y + o.height > d.world.height,
            Issue(WARNING, ObstacleOutside, ObstacleAt(i))),
      Check(o.width < 10.0 || o.height < 10.0, Issue(WARNING, SmallObstacle, ObstacleAt(i))),
      Check(o.width > d.world.width * 0.5 || o.height > d.world.height * 0.5,
            Issue(WARNING, LargeObstacle, ObstacleAt(i))) ]
  }

  function ObstaclesUpTo(d: SceneDefinition, n: nat): seq<Issue>
    requires n <= |d.obstacles|
  {
    if n == 0 then [] else ObstaclesUpTo(d, n - 1) + Raised(ObstacleChecks(d, n - 1))
  }

  /** The checks of validateCollectibles for collectible `i`. */
  function CollectibleChecks(d: SceneDefinition, i: nat): seq<Check>
    requires i < |d.collectibles|
  {
    var c := d.collectibles[i];
    [Check(Outside(c.x, c.y, d.world), Issue(WARNING, CollectibleOutside, CollectibleAt(i)))]
    + HitChecks(CollectibleProbe(i), CollectiblePoint(c), d.obstacles)
  }

  function CollectiblesUpTo(d: SceneDefinition, n: nat): seq<Issue>
    requires n <= |d.collectibles|
  {
    if n == 0 then [] else CollectiblesUpTo(d, n - 1) + Raised(CollectibleChecks(d, n - 1))
  }

  /** The check of validateCollectibles before its loop. */
  function NoCollectiblesCheck(d: SceneDefinition): Check
  {
    Check(d.collectibles == [] && d.transitionTrigger == CollectiblesComplete,
          Issue(ERROR, NoCollectibles, CollectibleList))
  }

  /** The check of validateCollectibles after its loop. */
  function ManyCollectiblesCheck(d: SceneDefinition): Check
  {
    Check(|d.collectibles| > 50, Issue(WARNING, ManyCollectibles, CollectibleList))
  }

  /** The checks of validateEnemies for enemy `i`. */
  function EnemyChecks(d: SceneDefinition, i: nat): seq<Check>
    requires i < |d.enemies|
  {
    var e := d.enemies[i];
    [ Check(Outside(e.x, e.y, d.world), Issue(WARNING, EnemyOutside, EnemyAt(i))),
      Check(e.speed <= 0.0, Issue(ERROR, NonPositiveEnemySpeed, EnemyAt(i))),
      Check(e.speed > 1000.0, Issue(WARNING, FastEnemy, EnemyAt(i))) ]
    + HitChecks(EnemyProbe(i), EnemyPoint(e), d.obstacles)
    + [ Check(e.pattern == CIRCULAR && e.radius <= 0.0, Issue(ERROR, CircleWithoutRadius, EnemyAt(i))),
        Check(e.pattern == PATROL && e.patrolPoint1.x == e.patrolPoint2.x && e.patrolPoint1.y == e.patrolPoint2.y,
              Issue(WARNING, IdenticalPatrolPoints, EnemyAt(i))) ]
  }

  function EnemiesUpTo(d: SceneDefinition, n: nat): seq<Issue>
    requires n <= |d.enemies|
  {
    if n == 0 then [] else EnemiesUpTo(d, n - 1) + Raised(EnemyChecks(d, n - 1))
  }

  function NoEnemiesCheck(d: SceneDefinition): Check
  {
    Check(d.enemies == [] && d.transitionTrigger == EnemiesDefeat, Issue(ERROR, NoEnemies, EnemyList))
  }

  function ManyEnemiesCheck(d: SceneDefinition): Check
  {
    Check(|d.enemies| > 20, Issue(WARNING, ManyEnemies, EnemyList))
  }

  function OverlapWarning(i: nat, j: nat): Issue
  {
    Issue(WARNING, ObstaclesOverlapping(i, j), ObstacleList)
  }

  /** The inner overlap loop for obstacle `i`: one check per later
      obstacle. */
  function ObstacleRow(obstacles: seq<ObstacleData>, i: nat): (checks: seq<Check>)
    requires i < |obstacles|
    ensures |checks| == |obstacles| - i - 1
  {
    seq(|obstacles| - i - 1, k requires 0 <= k < |obstacles| - i - 1 =>
      Check(DoObstaclesOverlap(obstacles[i], obstacles[i + 1 + k]), OverlapWarning(i, i + 1 + k)))
  }

  /** The overlap warnings of the rows of the first `n` obstacles. */
  function ObstaclePairs(obstacles: seq<ObstacleData>, n: nat): seq<Issue>
    requires n <= |obstacles|
  {
    if n == 0 then [] else ObstaclePairs(obstacles, n - 1) + Raised(ObstacleRow(obstacles, n - 1))
  }

  /** Two collectibles less than 50 apart: the squared distance is below
      2500. */
  predicate TooClose(a: CollectibleData, b: CollectibleData)
  {
    (a.x - b.x) * (a.x - b.x) + (a.y - b.y) * (a.y - b.y) < 2500.0
  }

  function CollectibleRow(collectibles: seq<CollectibleData>, i: nat): (checks: seq<Check>)
    requires i < |collectibles|
    ensures |checks| == |collectibles| - i - 1
  {
    seq(|collectibles| - i - 1, k requires 0 <= k < |collectibles| - i - 1 =>
      Check(TooClose(collectibles[i], collectibles[i + 1 + k]),
            Issue(WARNING, CollectiblesTooClose(i, i + 1 + k), CollectibleList)))
  }

  function CollectiblePairs(collectibles: seq<CollectibleData>, n: nat): seq<Issue>
    requires n <= |collectibles|
  {
    if n == 0 then [] else CollectiblePairs(collectibles, n - 1) + Raised(CollectibleRow(collectibles, n - 1))
  }

  /** Sample `k` of 20 on the segment from `a` to `b` (glm::mix). */
  function Sample(a: Vec2, b: Vec2, k: int): Vec2
  {
    var t := k as real / 20.0;
    Vec2(a.x * (1.0 - t) + b.x * t, a.y * (1.0 - t) + b.y * t)
  }

  /** isCollectibleReachable: none of the 21 samples on the segment from
      the spawn point to the collectible lies in an obstacle. */
  predicate Reachable(c: CollectibleData, spawn: PlayerSpawn, obstacles: seq<ObstacleData>)
  {
    forall k, j :: 0 <= k <= 20 && 0 <= j < |obstacles| ==>
      !IsPointInObstacle(Sample(Vec2(spawn.x, spawn.y), Vec2(c.x, c.y), k), obstacles[j])
  }

  /** validateReachability. */
  function ReachabilityChecks(d: SceneDefinition): (checks: seq<Check>)
    ensures |checks| == |d.collectibles|
  {
    seq(|d.collectibles|, i requires 0 <= i < |d.collectibles| =>
      Check(!Reachable(d.collectibles[i], d.playerSpawn, d.obstacles),
            Issue(WARNING, MayBeUnreachable, CollectibleAt(i))))
  }

  function BasicIssues(d: SceneDefinition): seq<Issue> { Raised(BasicChecks(d)) }
  function WorldIssues(d: SceneDefinition): seq<Issue> { Raised(WorldChecks(d)) }
  function SpawnIssues(d: SceneDefinition): seq<Issue> { Raised(SpawnChecks(d)) }
  function ObstacleIssues(d: SceneDefinition): seq<Issue> { ObstaclesUpTo(d, |d.obstacles|) }

  function CollectibleIssues(d: SceneDefinition): seq<Issue>
  {
    Raised([NoCollectiblesCheck(d)]) + CollectiblesUpTo(d, |d.collectibles|) + Raised([ManyCollectiblesCheck(d)])
  }

  function EnemyIssues(d: SceneDefinition): seq<Issue>
  {
    Raised([NoEnemiesCheck(d)]) + EnemiesUpTo(d, |d.enemies|) + Raised([ManyEnemiesCheck(d)])
  }

  function OverlapIssues(d: SceneDefinition): seq<Issue>
  {
    ObstaclePairs(d.obstacles, |d.obstacles|) + CollectiblePairs(d.collectibles, |d.collectibles|)
  }

  function ReachabilityIssues(d: SceneDefinition): seq<Issue> { Raised(ReachabilityChecks(d)) }

  /** validate: the eight checks in their fixed order. */
  function Issues(d: SceneDefinition): seq<Issue>
  {
    BasicIssues(d) + WorldIssues(d) + SpawnIssues(d) + ObstacleIssues(d)
    + CollectibleIssues(d) + EnemyIssues(d) + OverlapIssues(d) + ReachabilityIssues(d)
  }

  // ---------------------------------------------------------------------
  // The validator's methods, each appending its issues to the result.
  // ---------------------------------------------------------------------

  /** addError or addWarning, by the issue's severity, when `raised`. */
  method Report(result: ValidationResult, check: Check)
    requires result.Valid()
    modifies result
    ensures result.Valid()
    ensures result.issues == old(result.issues) + Raised([check])
  {
    if check.raised {
      if check.issue.severity == ERROR {
        result.AddError(check.issue.rule, check.issue.location);
      } else {
        result.AddWarning(check.issue.rule, check.issue.location);
      }
    }
  }

  /** The checks, taken in order. */
  method ReportAll(result: ValidationResult, checks: seq<Check>)
    requires result.Valid()
    modifies result
    ensures result.Valid() && result.issues == old(result.issues) + Raised(checks)
  {
    var k := 0;
    while k < |checks|
      invariant 0 <= k <= |checks|
      invariant result.Valid() && result.issues == old(result.issues) + Raised(checks[..k])
    {
      Report(result, checks[k]);
      assert checks[..k + 1][..k] == checks[..k];
      k := k + 1;
    }
    assert checks[..k] == checks;
  }

  method ValidateBasicProperties(d: SceneDefinition, result: ValidationResult)
    requires result.Valid()
    modifies result
    ensures result.Valid() && result.issues == old(result.issues) + BasicIssues(d)
  {
    ReportAll(result, BasicChecks(d));
  }

  method ValidateWorldSettings(d: SceneDefinition, result: ValidationResult)
    requires result.Valid()
    modifies result
    ensures result.Valid() && result.issues == old(result.issues) + WorldIssues(d)
  {
    ReportAll(result, WorldChecks(d));
  }

  method ValidatePlayerSpawn(d: SceneDefinition, result: ValidationResult)
    requires result.Valid()
    modifies result
    ensures result.Valid() && result.issues == old(result.issues) + SpawnIssues(d)
  {
    ReportAll(result, SpawnChecks(d));
  }

  method ValidateObstacles(d: SceneDefinition, result: ValidationResult)
    requires result.Valid()
    modifies result
    ensures result.Valid() && result.issues == old(result.issues) + ObstacleIssues(d)
  {
    ghost var start := result.issues;
    var i := 0;
    while i < |d.obstacles|
      invariant 0 <= i <= |d.obstacles|
      invariant result.Valid() && result.issues == start + ObstaclesUpTo(d, i)
    {
      ReportAll(result, ObstacleChecks(d, i));
      Then(start, ObstaclesUpTo(d, i), Raised(ObstacleChecks(d, i)));
      i := i + 1;
    }
  }

  method ValidateCollectibles(d: SceneDefinition, result: ValidationResult)
    requires result.Valid()
    modifies result
    ensures result.Valid() && result.issues == old(result.issues) + CollectibleIssues(d)
  {
    ghost var start := result.issues;
    Report(result, NoCollectiblesCheck(d));
    ghost var first := result.issues;
    var i := 0;
    while i < |d.collectibles|
      invariant 0 <= i <= |d.collectibles|
      invariant result.Valid() && result.issues == first + CollectiblesUpTo(d, i)
    {
      ReportAll(result, CollectibleChecks(d, i));
      Then(first, CollectiblesUpTo(d, i), Raised(CollectibleChecks(d, i)));
      i := i + 1;
    }
    Report(result, ManyCollectiblesCheck(d));
    Then3(start, Raised([NoCollectiblesCheck(d)]), CollectiblesUpTo(d, |d.collectibles|),
          Raised([ManyCollectiblesCheck(d)]));
  }

  method ValidateEnemies(d: SceneDefinition, result: ValidationResult)
    requires result.Valid()
    modifies result
    ensures result.Valid() && result.issues == old(result.issues) + EnemyIssues(d)
  {
    ghost var start := result.issues;
    Report(result, NoEnemiesCheck(d));
    ghost var first := result.issues;
    var i := 0;
    while i < |d.enemies|
      invariant 0 <= i <= |d.enemies|
      invariant result.Valid() && result.issues == first + EnemiesUpTo(d, i)
    {
      ReportAll(result, EnemyChecks(d, i));
      Then(first, EnemiesUpTo(d, i), Raised(EnemyChecks(d, i)));
      i := i + 1;
    }
    Report(result, ManyEnemiesCheck(d));
    Then3(start, Raised([NoEnemiesCheck(d)]), EnemiesUpTo(d, |d.enemies|), Raised([ManyEnemiesCheck(d)]));
  }

  method ValidateObjectOverlaps(d: SceneDefinition, result: ValidationResult)
    requires result.Valid()
    modifies result
    ensures result.Valid() && result.issues == old(result.issues) + OverlapIssues(d)
  {
    ghost var start := result.issues;
    var i := 0;
    while i < |d.obstacles|
      invariant 0 <= i <= |d.obstacles|
      invariant result.Valid() && result.issues == start + ObstaclePairs(d.obstacles, i)
    {
      ReportAll(result, ObstacleRow(d.obstacles, i));
      Then(start, ObstaclePairs(d.obstacles, i), Raised(ObstacleRow(d.obstacles, i)));
      i := i + 1;
    }
    ghost var middle := result.issues;
    i := 0;
    while i < |d.collectibles|
      invariant 0 <= i <= |d.collectibles|
      invariant result.Valid() && result.issues == middle + CollectiblePairs(d.collectibles, i)
    {
      ReportAll(result, CollectibleRow(d.collectibles, i));
      Then(middle, CollectiblePairs(d.collectibles, i), Raised(CollectibleRow(d.collectibles, i)));
      i := i + 1;
    }
    Then(start, ObstaclePairs(d.obstacles, |d.obstacles|), CollectiblePairs(d.collectibles, |d.collectibles|));
  }

  /** isCollectibleReachable, returning at the first blocked sample. */
  method IsCollectibleReachable(c: CollectibleData, spawn: PlayerSpawn, obstacles: seq<ObstacleData>)
    returns (reachable: bool)
    ensures reachable <==> Reachable(c, spawn, obstacles)
  {
    var from := Vec2(spawn.x, spawn.y);
    var to := Vec2(c.x, c.y);
    var k := 0;
    while k <= 20
      invariant 0 <= k <= 21
      invariant forall k', j :: 0 <= k' < k && 0 <= j < |obstacles| ==>
        !IsPointInObstacle(Sample(from, to, k'), obstacles[j])
    {
      var p := Sample(from, to, k);
      var j := 0;
      while j < |obstacles|
        invariant 0 <= j <= |obstacles|
        invariant forall j' :: 0 <= j' < j ==> !IsPointInObstacle(p, obstacles[j'])
      {
        if IsPointInObstacle(p, obstacles[j]) {
          return false;
        }
        j := j + 1;
      }
      k := k + 1;
    }
    return true;
  }

  method ValidateReachability(d: SceneDefinition, result: ValidationResult)
    requires result.Valid()
    modifies result
    ensures result.Valid() && result.issues == old(result.issues) + ReachabilityIssues(d)
  {
    ghost var start := result.issues;
    ghost var checks := ReachabilityChecks(d);
    var i := 0;
    while i < |d.collectibles|
      invariant 0 <= i <= |d.collectibles|
      invariant result.Valid() && result.issues == start + Raised(checks[..i])
    {
      var reachable := IsCollectibleReachable(d.collectibles[i], d.playerSpawn, d.obstacles);
      Report(result, Check(!reachable, Issue(WARNING, MayBeUnreachable, CollectibleAt(i))));
      assert checks[..i + 1][..i] == checks[..i];
      Then(start, Raised(checks[..i]), Raised([checks[i]]));
      i := i + 1;
    }
    assert checks[..i] == checks;
  }

  /** validate: a fresh result holding the issues of the eight checks in
      order; it is valid exactly when none of them is an error. */
  method Validate(d: SceneDefinition) returns (result: ValidationResult)
    ensures fresh(result) && result.Valid() && result.issues == Issues(d)
    ensures result.isValid <==> ErrorFree(Issues(d))
  {
    result := new ValidationResult();
    ValidateBasicProperties(d, result);
    assert result.issues == BasicIssues(d);
    ValidateWorldSettings(d, result);
    ValidatePlayerSpawn(d, result);
    ValidateObstacles(d, result);
    ValidateCollectibles(d, result);
    ValidateEnemies(d, result);
    ValidateObjectOverlaps(d, result);
    ValidateReachability(d, result);
    ErrorFreeCount(result.issues);
  }

  lemma Then(s: seq<Issue>, a: seq<Issue>, b: seq<Issue>)
    ensures (s + a) + b == s + (a + b)
  {
  }

  lemma Then3(s: seq<Issue>, a: seq<Issue>, b: seq<Issue>, c: seq<Issue>)
    ensures ((s + a) + b) + c == s + ((a + b) + c)
  {
  }

  // ---------------------------------------------------------------------
  // Properties of the rules.
  // ---------------------------------------------------------------------

  /** Overlap does not depend on the order of the two obstacles. */
  lemma OverlapIsSymmetric(a: ObstacleData, b: ObstacleData)
    ensures DoObstaclesOverlap(a, b) <==> DoObstaclesOverlap(b, a)
  {
  }

  /** For obstacles of non-negative size, overlapping means sharing a
      point; so touching edges count as overlap. */
  lemma OverlapIsSharedPoint(a: ObstacleData, b: ObstacleData)
    requires a.width >= 0.0 && a.height >= 0.0 && b.width >= 0.0 && b.height >= 0.0
    ensures DoObstaclesOverlap(a, b) <==> exists p :: IsPointInObstacle(p, a) && IsPointInObstacle(p, b)
  {
    if DoObstaclesOverlap(a, b) {
      var p := Vec2(if a.x < b.x then b.x else a.x, if a.y < b.y then b.y else a.y);
      assert IsPointInObstacle(p, a) && IsPointInObstacle(p, b);
    }
  }

  /** Every corner of an obstacle of non-negative size lies in it. */
  lemma CornersAreInside(o: ObstacleData)
    requires o.width >= 0.0 && o.height >= 0.0
    ensures IsPointInObstacle(Vec2(o.x, o.y), o) && IsPointInObstacle(Vec2(o.x + o.width, o.y), o)
    ensures IsPointInObstacle(Vec2(o.x, o.y + o.height), o)
    ensures IsPointInObstacle(Vec2(o.x + o.width, o.y + o.height), o)
  {
  }

  lemma DistinctAppend(a: seq<Issue>, b: seq<Issue>)
    requires Distinct(a) && Distinct(b)
    requires forall x :: x in a ==> x !in b
    ensures Distinct(a + b)
  {
    forall p, q | 0 <= p < q < |a + b|
      ensures (a + b)[p] != (a + b)[q]
    {
      if q < |a| {
        assert (a + b)[p] == a[p] && (a + b)[q] == a[q];
      } else if p < |a| {
        assert (a + b)[p] == a[p] && a[p] in a;
        assert (a + b)[q] == b[q - |a|] && b[q - |a|] in b;
      } else {
        assert (a + b)[p] == b[p - |a|] && (a + b)[q] == b[q - |a|];
      }
    }
  }

  /** An issue is reported exactly when a check that holds carries it. */
  lemma {:induction false} RaisedMembers(checks: seq<Check>)
    ensures forall x :: x in Raised(checks) <==>
      exists k :: 0 <= k < |checks| && checks[k].raised && checks[k].issue == x
  {
    if checks != [] {
      var init := checks[..|checks| - 1];
      RaisedMembers(init);
      forall x | x in Raised(init)
        ensures exists k :: 0 <= k < |checks| && checks[k].raised && checks[k].issue == x
      {
        var k :| 0 <= k < |init| && init[k].raised && init[k].issue == x;
        assert checks[k] == init[k];
      }
    }
  }

  /** Checks that carry different issues report each issue at most once. */
  lemma {:induction false} RaisedDistinct(checks: seq<Check>)
    requires forall p, q :: 0 <= p < q < |checks| ==> checks[p].issue != checks[q].issue
    ensures Distinct(Raised(checks))
  {
    if checks != [] {
      var init := checks[..|checks| - 1];
      var last := checks[|checks| - 1];
      RaisedDistinct(init);
      RaisedMembers(init);
      DistinctAppend(Raised(init), if last.raised then [last.issue] else []);
    }
  }

  /** The checks report no error exactly when no error check holds. */
  lemma ErrorFreeRaised(checks: seq<Check>)
    ensures ErrorFree(Raised(checks)) <==>
      forall k :: 0 <= k < |checks| && checks[k].raised ==> checks[k].issue.severity != ERROR
  {
    RaisedMembers(checks);
    if !ErrorFree(Raised(checks)) {
      var x :| x in Raised(checks) && x.severity == ERROR;
      var k :| 0 <= k < |checks| && checks[k].raised && checks[k].issue == x;
    }
  }

  /** The obstacle loop reports each obstacle containing the point, once,
      and nothing else. */
  lemma HitsExactly(probe: Probe, p: Vec2, obstacles: seq<ObstacleData>)
    ensures forall j: nat :: HitIssue(probe, j) in Raised(HitChecks(probe, p, obstacles)) <==>
      j < |obstacles| && IsPointInObstacle(p, obstacles[j])
    ensures Distinct(Raised(HitChecks(probe, p, obstacles)))
  {
    var checks := HitChecks(probe, p, obstacles);
    assert forall j: nat, k: nat :: HitIssue(probe, j) == HitIssue(probe, k) ==> j == k by {
      match probe
      case SpawnProbe =>
      case CollectibleProbe(_) =>
      case EnemyProbe(_) =>
    }
    RaisedMembers(checks);
    RaisedDistinct(checks);
    forall j: nat | j < |obstacles| && IsPointInObstacle(p, obstacles[j])
      ensures HitIssue(probe, j) in Raised(checks)
    {
      assert checks[j].raised && checks[j].issue == HitIssue(probe, j);
    }
  }

  /** The row of obstacle `i` warns about each later obstacle overlapping
      it, once, and about nothing else. */
  lemma ObstacleRowExactly(obstacles: seq<ObstacleData>, i: nat)
    requires i < |obstacles|
    ensures forall x :: x in Raised(ObstacleRow(obstacles, i)) ==>
      x.rule.ObstaclesOverlapping? && x == OverlapWarning(i, x.rule.j)
      && i < x.rule.j < |obstacles| && DoObstaclesOverlap(obstacles[i], obstacles[x.rule.j])
    ensures forall j: nat :: i < j < |obstacles| && DoObstaclesOverlap(obstacles[i], obstacles[j]) ==>
      OverlapWarning(i, j) in Raised(ObstacleRow(obstacles, i))
    ensures Distinct(Raised(ObstacleRow(obstacles, i)))
  {
    var row := ObstacleRow(obstacles, i);
    RaisedMembers(row);
    assert forall k :: 0 <= k < |row| ==> row[k].issue == OverlapWarning(i, i + 1 + k);
    RaisedDistinct(row);
    forall j: nat | i < j < |obstacles| && DoObstaclesOverlap(obstacles[i], obstacles[j])
      ensures OverlapWarning(i, j) in Raised(row)
    {
      assert row[j - i - 1].raised && row[j - i - 1].issue == OverlapWarning(i, j);
    }
  }

  /** validateObjectOverlaps warns exactly once for each pair i < j of
      overlapping obstacles, and about no other obstacle pair. */
  lemma {:induction false} ObstaclePairsExactly(obstacles: seq<ObstacleData>, n: nat)
    requires n <= |obstacles|
    ensures forall a: nat, b: nat :: OverlapWarning(a, b) in ObstaclePairs(obstacles, n) <==>
      a < n && a < b < |obstacles| && DoObstaclesOverlap(obstacles[a], obstacles[b])
    ensures forall x :: x in ObstaclePairs(obstacles, n) ==>
      x.rule.ObstaclesOverlapping? && x == OverlapWarning(x.rule.i, x.rule.j) && x.rule.i < n
    ensures Distinct(ObstaclePairs(obstacles, n))
  {
    if n > 0 {
      var prev := ObstaclePairs(obstacles, n - 1);
      var row := Raised(ObstacleRow(obstacles, n - 1));
      assert ObstaclePairs(obstacles, n) == prev + row;
      ObstaclePairsExactly(obstacles, n - 1);
      ObstacleRowExactly(obstacles, n - 1);
      forall x | x in prev
        ensures x !in row
      {
        assert x.rule.i < n - 1;
      }
      DistinctAppend(prev, row);
      forall a: nat, b: nat
        ensures OverlapWarning(a, b) in prev + row <==>
          a < n && a < b < |obstacles| && DoObstaclesOverlap(obstacles[a], obstacles[b])
      {
        if OverlapWarning(a, b) in row {
          assert a == n - 1;
        }
      }
    }
  }

  /** One warning per unordered pair of distinct overlapping obstacles:
      the one naming the lower index first. */
  lemma OneWarningPerOverlappingPair(obstacles: seq<ObstacleData>, i: nat, j: nat)
    requires i < j < |obstacles|
    ensures OverlapWarning(i, j) in ObstaclePairs(obstacles, |obstacles|)
            <==> DoObstaclesOverlap(obstacles[j], obstacles[i])
    ensures OverlapWarning(j, i) !in ObstaclePairs(obstacles, |obstacles|)
  {
    ObstaclePairsExactly(obstacles, |obstacles|);
    OverlapIsSymmetric(obstacles[i], obstacles[j]);
  }

  /** The error rules of the validator stated on their own: what a
      definition must satisfy for validation to report no error. */
  predicate Acceptable(d: SceneDefinition)
  {
    && d.name != ""
    && d.world.width > 0.0 && d.world.height > 0.0
    && d.camera.followSpeed > 0.0
    && !Outside(d.playerSpawn.x, d.playerSpawn.y, d.world) && SpawnClear(d)
    && ObstaclesSized(d)
    && (d.transitionTrigger == CollectiblesComplete ==> d.collectibles != []) && CollectiblesClear(d)
    && (d.transitionTrigger == EnemiesDefeat ==> d.enemies != []) && EnemiesMove(d)
  }

  /** No obstacle contains the player's spawn point. */
  predicate SpawnClear(d: SceneDefinition)
  {
    forall o :: o in d.obstacles ==> !IsPointInObstacle(SpawnPoint(d.playerSpawn), o)
  }

  /** Every obstacle has a positive width and height. */
  predicate ObstaclesSized(d: SceneDefinition)
  {
    forall o :: o in d.obstacles ==> o.width > 0.0 && o.height > 0.0
  }

  /** No obstacle contains a collectible's centre. */
  predicate CollectiblesClear(d: SceneDefinition)
  {
    forall c, o :: c in d.collectibles && o in d.obstacles ==> !IsPointInObstacle(CollectiblePoint(c), o)
  }

  /** Every enemy moves, and every circling enemy has a radius. */
  predicate EnemiesMove(d: SceneDefinition)
  {
    forall e :: e in d.enemies ==> e.speed > 0.0 && (e.pattern == CIRCULAR ==> e.radius > 0.0)
  }

  /** The obstacle loop reports an error exactly when it reports for the
      spawn point or a collectible and some obstacle contains the point. */
  lemma HitsErrorFree(probe: Probe, p: Vec2, obstacles: seq<ObstacleData>)
    ensures ErrorFree(Raised(HitChecks(probe, p, obstacles))) <==>
      probe.EnemyProbe? || forall o :: o in obstacles ==> !IsPointInObstacle(p, o)
  {
    var checks := HitChecks(probe, p, obstacles);
    ErrorFreeRaised(checks);
    if !probe.EnemyProbe? && exists o :: o in obstacles && IsPointInObstacle(p, o) {
      var o :| o in obstacles && IsPointInObstacle(p, o);
      var j :| 0 <= j < |obstacles| && obstacles[j] == o;
      assert checks[j].raised && checks[j].issue.severity == ERROR;
    }
  }

  lemma ObstacleChecksErrorFree(d: SceneDefinition, i: nat)
    requires i < |d.obstacles|
    ensures ErrorFree(Raised(ObstacleChecks(d, i))) <==> d.obstacles[i].width > 0.0 && d.obstacles[i].height > 0.0
  {
    var checks := ObstacleChecks(d, i);
    ErrorFreeRaised(checks);
    assert checks[0].issue.severity == ERROR;
    assert forall k :: 1 <= k < |checks| ==> checks[k].issue.severity == WARNING;
  }

  lemma {:induction false} ObstaclesUpToErrorFree(d: SceneDefinition, n: nat)
    requires n <= |d.obstacles|
    ensures ErrorFree(ObstaclesUpTo(d, n)) <==>
      forall i :: 0 <= i < n ==> d.obstacles[i].width > 0.0 && d.obstacles[i].height > 0.0
  {
    if n > 0 {
      ObstaclesUpToErrorFree(d, n - 1);
      ObstacleChecksErrorFree(d, n - 1);
      ErrorFreeAppend(ObstaclesUpTo(d, n - 1), Raised(ObstacleChecks(d, n - 1)));
    }
  }

  lemma CollectibleChecksErrorFree(d: SceneDefinition, i: nat)
    requires i < |d.collectibles|
    ensures ErrorFree(Raised(CollectibleChecks(d, i))) <==>
      forall o :: o in d.obstacles ==> !IsPointInObstacle(CollectiblePoint(d.collectibles[i]), o)
  {
    var c := d.collectibles[i];
    var hits := HitChecks(CollectibleProbe(i), CollectiblePoint(c), d.obstacles);
    RaisedAppend([Check(Outside(c.x, c.y, d.world), Issue(WARNING, CollectibleOutside, CollectibleAt(i)))], hits);
    HitsErrorFree(CollectibleProbe(i), CollectiblePoint(c), d.obstacles);
  }

  lemma {:induction false} CollectiblesUpToErrorFree(d: SceneDefinition, n: nat)
    requires n <= |d.collectibles|
    ensures ErrorFree(CollectiblesUpTo(d, n)) <==>
      forall i, o :: 0 <= i < n && o in d.obstacles ==> !IsPointInObstacle(CollectiblePoint(d.collectibles[i]), o)
  {
    if n > 0 {
      var before := CollectiblesUpTo(d, n - 1);
      var last := Raised(CollectibleChecks(d, n - 1));
      CollectiblesUpToErrorFree(d, n - 1);
      CollectibleChecksErrorFree(d, n - 1);
      ErrorFreeAppend(before, last);
      assert CollectiblesUpTo(d, n) == before + last;
      if ErrorFree(before + last) {
        forall i, o | 0 <= i < n && o in d.obstacles
          ensures !IsPointInObstacle(CollectiblePoint(d.collectibles[i]), o)
        {
          if i < n - 1 {
          }
        }
      }
    }
  }

  lemma EnemyChecksErrorFree(d: SceneDefinition, i: nat)
    requires i < |d.enemies|
    ensures ErrorFree(Raised(EnemyChecks(d, i))) <==>
      d.enemies[i].speed > 0.0 && (d.enemies[i].pattern == CIRCULAR ==> d.enemies[i].radius > 0.0)
  {
    var e := d.enemies[i];
    var checks := EnemyChecks(d, i);
    var hits := HitChecks(EnemyProbe(i), EnemyPoint(e), d.obstacles);
    var m := |d.obstacles|;
    ErrorFreeRaised(checks);
    assert checks[1] == Check(e.speed <= 0.0, Issue(ERROR, NonPositiveEnemySpeed, EnemyAt(i)));
    assert checks[m + 3] == Check(e.pattern == CIRCULAR && e.radius <= 0.0, Issue(ERROR, CircleWithoutRadius, EnemyAt(i)));
    forall k | 0 <= k < |checks| && k != 1 && k != m + 3
      ensures checks[k].issue.severity == WARNING
    {
      if 3 <= k < m + 3 {
        assert checks[k] == hits[k - 3];
      }
    }
  }

  lemma {:induction false} EnemiesUpToErrorFree(d: SceneDefinition, n: nat)
    requires n <= |d.enemies|
    ensures ErrorFree(EnemiesUpTo(d, n)) <==>
      forall i :: 0 <= i < n ==>
        d.enemies[i].speed > 0.0 && (d.enemies[i].pattern == CIRCULAR ==> d.enemies[i].radius > 0.0)
  {
    if n > 0 {
      EnemiesUpToErrorFree(d, n - 1);
      EnemyChecksErrorFree(d, n - 1);
      ErrorFreeAppend(EnemiesUpTo(d, n - 1), Raised(EnemyChecks(d, n - 1)));
    }
  }

  lemma {:induction false} CollectiblePairsWarnOnly(collectibles: seq<CollectibleData>, n: nat)
    requires n <= |collectibles|
    ensures ErrorFree(CollectiblePairs(collectibles, n))
  {
    if n > 0 {
      CollectiblePairsWarnOnly(collectibles, n - 1);
      ErrorFreeRaised(CollectibleRow(collectibles, n - 1));
    }
  }

  lemma ErrorFreeAppend(a: seq<Issue>, b: seq<Issue>)
    ensures ErrorFree(a + b) <==> ErrorFree(a) && ErrorFree(b)
  {
  }

  /** The checks of a concatenated table report the issues of each part. */
  lemma {:induction false} RaisedAppend(a: seq<Check>, b: seq<Check>)
    ensures Raised(a + b) == Raised(a) + Raised(b)
    decreases |b|
  {
    if b == [] {
      assert a + b == a;
    } else {
      var init := b[..|b| - 1];
      RaisedAppend(a, init);
      assert (a + b)[..|a + b| - 1] == a + init;
    }
  }

  lemma BasicErrorFree(d: SceneDefinition)
    ensures ErrorFree(BasicIssues(d)) <==> d.name != ""
  {
    var checks := BasicChecks(d);
    ErrorFreeRaised(checks);
    assert checks[0].issue.severity == ERROR;
    assert forall k :: 1 <= k < |checks| ==> checks[k].issue.severity == WARNING;
  }

  lemma WorldErrorFree(d: SceneDefinition)
    ensures ErrorFree(WorldIssues(d)) <==>
      d.world.width > 0.0 && d.world.height > 0.0 && d.camera.followSpeed > 0.0
  {
    var checks := WorldChecks(d);
    ErrorFreeRaised(checks);
    assert checks[0].issue.severity == ERROR && checks[3].issue.severity == ERROR;
    assert forall k :: 0 <= k < |checks| && k != 0 && k != 3 ==> checks[k].issue.severity == WARNING;
  }

  lemma SpawnErrorFree(d: SceneDefinition)
    ensures ErrorFree(SpawnIssues(d)) <==> !Outside(d.playerSpawn.x, d.playerSpawn.y, d.world) && SpawnClear(d)
  {
    var first := [Check(Outside(d.playerSpawn.x, d.playerSpawn.y, d.world), Issue(ERROR, SpawnOutside, SpawnField))];
    RaisedAppend(first, HitChecks(SpawnProbe, SpawnPoint(d.playerSpawn), d.obstacles));
    HitsErrorFree(SpawnProbe, SpawnPoint(d.playerSpawn), d.obstacles);
  }

  lemma ObstacleErrorFree(d: SceneDefinition)
    ensures ErrorFree(ObstacleIssues(d)) <==> ObstaclesSized(d)
  {
    ObstaclesUpToErrorFree(d, |d.obstacles|);
  }

  lemma CollectibleErrorFree(d: SceneDefinition)
    ensures ErrorFree(CollectibleIssues(d)) <==>
      (d.transitionTrigger == CollectiblesComplete ==> d.collectibles != []) && CollectiblesClear(d)
  {
    CollectiblesUpToErrorFree(d, |d.collectibles|);
    ErrorFreeRaised([NoCollectiblesCheck(d)]);
    ErrorFreeRaised([ManyCollectiblesCheck(d)]);
    forall c, o | c in d.collectibles && o in d.obstacles && ErrorFree(CollectiblesUpTo(d, |d.collectibles|))
      ensures !IsPointInObstacle(CollectiblePoint(c), o)
    {
      var i :| 0 <= i < |d.collectibles| && d.collectibles[i] == c;
    }
  }

  lemma EnemyErrorFree(d: SceneDefinition)
    ensures ErrorFree(EnemyIssues(d)) <==> (d.transitionTrigger == EnemiesDefeat ==> d.enemies != []) && EnemiesMove(d)
  {
    EnemiesUpToErrorFree(d, |d.enemies|);
    ErrorFreeRaised([NoEnemiesCheck(d)]);
    ErrorFreeRaised([ManyEnemiesCheck(d)]);
  }

  /** Overlap and reachability only warn. */
  lemma OverlapAndReachabilityWarnOnly(d: SceneDefinition)
    ensures ErrorFree(OverlapIssues(d)) && ErrorFree(ReachabilityIssues(d))
  {
    ObstaclePairsExactly(d.obstacles, |d.obstacles|);
    CollectiblePairsWarnOnly(d.collectibles, |d.collectibles|);
    ErrorFreeRaised(ReachabilityChecks(d));
  }

  /** Validation reports no error exactly when the definition meets the
      error rules. */
  lemma ValidationAccepts(d: SceneDefinition)
    ensures ErrorFree(Issues(d)) <==> Acceptable(d)
  {
    IssuesErrorFree(d);
    BasicErrorFree(d);
    WorldErrorFree(d);
    SpawnErrorFree(d);
    ObstacleErrorFree(d);
    CollectibleErrorFree(d);
    EnemyErrorFree(d);
    OverlapAndReachabilityWarnOnly(d);
  }

  /** The issue list is error-free exactly when each validator's part is. */
  lemma IssuesErrorFree(d: SceneDefinition)
    ensures ErrorFree(Issues(d)) <==>
      && ErrorFree(BasicIssues(d)) && ErrorFree(WorldIssues(d)) && ErrorFree(SpawnIssues(d))
      && ErrorFree(ObstacleIssues(d)) && ErrorFree(CollectibleIssues(d)) && ErrorFree(EnemyIssues(d))
      && ErrorFree(OverlapIssues(d)) && ErrorFree(ReachabilityIssues(d))
  {
    var a := BasicIssues(d) + WorldIssues(d);
    ErrorFreeAppend(BasicIssues(d), WorldIssues(d));
    ErrorFreeAppend(a, SpawnIssues(d));
    a := a + SpawnIssues(d);
    ErrorFreeAppend(a, ObstacleIssues(d));
    a := a + ObstacleIssues(d);
    ErrorFreeAppend(a, CollectibleIssues(d));
    a := a + CollectibleIssues(d);
    ErrorFreeAppend(a, EnemyIssues(d));
    a := a + EnemyIssues(d);
    ErrorFreeAppend(a, OverlapIssues(d));
    a := a + OverlapIssues(d);
    ErrorFreeAppend(a, ReachabilityIssues(d));
  }


  /** A definition the validator passes without error is one the scene
      manager's own check accepts. */
  lemma ValidatorIsStricter(d: SceneDefinition)
    ensures ErrorFree(Issues(d)) ==> SceneManagement.ValidDefinition(d)
  {
    ValidationAccepts(d);
  }

  /** The scene manager's default scene passes validation without error
      whenever it is named. */
  lemma DefaultSceneValidates(name: string)
    ensures ErrorFree(Issues(SceneManagement.CreateDefaultScene(name))) <==> name != ""
  {
    ValidationAccepts(SceneManagement.CreateDefaultScene(name));
    DefaultSceneAcceptable(name);
  }

  /** The default scene meets every error rule but the one on its name. */
  lemma DefaultSceneAcceptable(name: string)
    ensures Acceptable(SceneManagement.CreateDefaultScene(name)) <==> name != ""
  {
    var d := SceneManagement.CreateDefaultScene(name);
    assert d.obstacles == [NewObstacle(300.0, 200.0, 80.0, 80.0), NewObstacle(500.0, 300.0, 60.0, 120.0)];
    assert d.collectibles == [NewCollectible(450.0, 150.0), NewCollectible(150.0, 250.0)];
  }
}
