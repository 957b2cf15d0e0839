/**
 * The mapping between event names and the cache file names of event-specific
 * rule files: the file name is a platform prefix followed by the lower-cased
 * event name (without any `=value` part), with '#' replaced by the rule file
 * separator; the reverse mapping strips the prefix and restores the '#'.
 */
module RuleFileNames {
  import opened ArduinoString

  datatype Platform = ESP8266 | ESP32

  function Prefix(p: Platform): string
  {
    match p
    case ESP8266 => "rules/"
    case ESP32 => "/rules/"
  }

  /** The part of an event before its first '=' (the whole event when there is none). */
  function EventNamePart(eventName: string): (r: string)
    ensures '=' !in r
    ensures r <= eventName
    ensures '=' !in eventName ==> r == eventName
  {
    var index := IndexOfChar(eventName, '=', 0);
    var size := if index > -1 then index else |eventName|;
    Substring(eventName, 0, size)
  }

  /** `EventToFileName`; `sep` is the build's `RULE_FILE_SEPARAROR`. */
  function EventToFileName(p: Platform, sep: char, eventName: string): (r: string)
    ensures |r| == |Prefix(p)| + |EventNamePart(eventName)|
    ensures r[..|Prefix(p)|] == Prefix(p)
    ensures r[|Prefix(p)|..] == ToLower(ReplaceChar(EventNamePart(eventName), '#', sep))
    ensures '#' != sep && LowerChar(sep) == sep ==> '#' !in r
  {
    var pre, name := Prefix(p), EventNamePart(eventName);
    var r := ToLower(ReplaceChar(pre + name, '#', sep));
    assert r[..|pre|] == pre by {
      assert forall i :: 0 <= i < |pre| ==> (pre + name)[i] == pre[i];
    }
    assert r[|pre|..] == ToLower(ReplaceChar(name, '#', sep)) by {
      assert forall i :: 0 <= i < |name| ==> (pre + name)[|pre| + i] == name[i];
    }
    r
  }

  /**
   * `FileNameToEvent`: the platform prefix is dropped without being checked
   * (a name shorter than the prefix gives the empty event) and every separator
   * becomes '#' again.
   */
  function FileNameToEvent(p: Platform, sep: char, fileName: string): (r: string)
    ensures |fileName| >= |Prefix(p)| ==> r == ReplaceChar(fileName[|Prefix(p)|..], sep, '#')
    ensures |fileName| <= |Prefix(p)| ==> r == ""
    ensures sep != '#' ==> sep !in r
  {
    ReplaceChar(SubstringFrom(fileName, |Prefix(p)|), sep, '#')
  }

  /** An event's value part does not influence the file name. */
  lemma FileNameIgnoresValue(p: Platform, sep: char, name: string, value: string)
    requires '=' !in name
    ensures EventToFileName(p, sep, name + "=" + value) == EventToFileName(p, sep, name)
  {
    var e := name + "=" + value;
    assert e[|name|] == '=';
    assert forall k :: 0 <= k < |name| ==> e[k] == name[k];
    assert IndexOfChar(e, '=', 0) == |name|;
    assert Substring(e, 0, |name|) == name;
  }

  /**
   * For a lower-case event name without '=' and without the separator, the
   * reverse mapping recovers the event name.
   */
  lemma RoundTrip(p: Platform, sep: char, eventName: string)
    requires '=' !in eventName && sep !in eventName && sep != '#'
    requires LowerChar(sep) == sep
    requires forall i :: 0 <= i < |eventName| ==> LowerChar(eventName[i]) == eventName[i]
    ensures FileNameToEvent(p, sep, EventToFileName(p, sep, eventName)) == eventName
  {
    var f := EventToFileName(p, sep, eventName);
    var pre := Prefix(p);
    assert EventNamePart(eventName) == eventName;
    var tail := SubstringFrom(f, |pre|);
    assert |tail| == |eventName|;
    forall k | 0 <= k < |eventName|
      ensures ReplaceChar(tail, sep, '#')[k] == eventName[k]
    {
      assert tail[k] == f[|pre| + k];
      assert (pre + eventName)[|pre| + k] == eventName[k];
    }
  }
}
