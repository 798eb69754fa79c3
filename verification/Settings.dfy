// The settings store: a map from keys to their text, with typed access
// through text conversions. Only the bool conversions, which the header
// defines outright, are modelled; the stream-based conversions of other
// types and the file, window and monitor settings are not.

module Configuration {

  /** toString<bool>: "true" or "false". */
  function BoolToString(value: bool): (s: string)
    ensures s == "true" || s == "false"
    ensures s == "true" <==> value
  {
    if value then "true" else "false"
  }

  /** The texts that fromString<bool> recognises. */
  predicate IsBoolText(s: string)
  {
    s == "true" || s == "1" || s == "false" || s == "0"
  }

  /** fromString<bool>: "true" and "1" are true, "false" and "0" are false,
      and any other text gives the default. */
  function BoolFromString(s: string, defaultValue: bool): (b: bool)
    ensures IsBoolText(s) ==> (b <==> s == "true" || s == "1")
    ensures !IsBoolText(s) ==> b == defaultValue
  {
    if s == "true" || s == "1" then true
    else if s == "false" || s == "0" then false
    else defaultValue
  }

  /** Reading back a written bool gives that bool, whatever the default. */
  lemma BoolRoundTrip(value: bool, defaultValue: bool)
    ensures BoolFromString(BoolToString(value), defaultValue) == value
  {
  }

  /** The default matters exactly for the texts that are not recognised. */
  lemma DefaultUsedExactlyWhenUnrecognised(s: string)
    ensures BoolFromString(s, true) != BoolFromString(s, false) <==> !IsBoolText(s)
  {
  }

  /** getSetting<bool> on a plain map: the stored text converted, or the
      default when the key is absent. */
  function LookupBool(settings: map<string, string>, key: string, defaultValue: bool): (b: bool)
    ensures key !in settings ==> b == defaultValue
    ensures key in settings && IsBoolText(settings[key]) ==> (b <==> settings[key] == "true" || settings[key] == "1")
  {
    if key in settings then BoolFromString(settings[key], defaultValue) else defaultValue
  }

  /** Storing a bool and looking it up returns it; other keys read as
      before. */
  lemma StoreThenLookup(settings: map<string, string>, key: string, value: bool, other: string, defaultValue: bool)
    ensures LookupBool(settings[key := BoolToString(value)], key, defaultValue) == value
    ensures other != key ==>
      LookupBool(settings[key := BoolToString(value)], other, defaultValue) == LookupBool(settings, other, defaultValue)
  {
  }

  class Settings {
    var settings: map<string, string>

    /** setSetting<bool>: the key now holds the bool's text; every other
        key is unchanged. */
    method SetSetting(key: string, value: bool)
      modifies this`settings
      ensures settings == old(settings)[key := BoolToString(value)]
      ensures forall d :: GetSetting(key, d) == value
      ensures forall k, d :: k != key ==> GetSetting(k, d) == old(GetSetting(k, d))
    {
      settings := settings[key := BoolToString(value)];
    }

    /** getSetting<bool>: the stored text converted, or the default when
        the key is absent. */
    function GetSetting(key: string, defaultValue: bool): (b: bool)
      reads this
      ensures b == LookupBool(settings, key, defaultValue)
      ensures key !in settings ==> b == defaultValue
    {
      if key in settings then BoolFromString(settings[key], defaultValue) else defaultValue
    }
  }
}
