/**
 * The rule event cache: the `on … do` lines of the rules files in the order
 * they were read, each with its file, position, trigger and action.  Lookup
 * scans from the front and stops at the first trigger that matches.
 */
module RulesEventCache {
  import opened Collaborators

  /** `RulesEventCache_element`: where the line is and what it says. */
  datatype Entry = Entry(filename: string, posInFile: nat, event: string, action: string)

  /**
   * The index of the first entry from `from` on whose trigger matches `event`,
   * or `|entries|` (the `end()` iterator) when there is none.
   */
  function FirstMatch(c: Capabilities, event: string, entries: seq<Entry>, from: nat): (i: nat)
    requires from <= |entries|
    ensures from <= i <= |entries|
    ensures i < |entries| ==> c.ruleMatch(event, entries[i].event)
    ensures forall k :: from <= k < i ==> !c.ruleMatch(event, entries[k].event)
    decreases |entries| - from
  {
    if from == |entries| then from
    else if c.ruleMatch(event, entries[from].event) then from
    else FirstMatch(c, event, entries, from + 1)
  }

  class RulesEventCache {
    /** `_eventCache`. */
    var entries: seq<Entry>
    /** `_initialized`. */
    var initialized: bool

    constructor()
      ensures entries == [] && !initialized
    {
      entries := [];
      initialized := false;
    }

    /** `clear()`: the cache is empty and no longer initialized. */
    method Clear()
      modifies this
      ensures entries == [] && !initialized
    {
      entries := [];
      initialized := false;
    }

    /** `initialize()`: marks the cache initialized and keeps its entries. */
    method Initialize()
      modifies this
      ensures entries == old(entries) && initialized
    {
      initialized := true;
    }

    /**
     * `addLine(line, filename, pos)`: a line `getEventFromRulesLine` accepts
     * becomes a new last entry; any other line leaves the cache alone.
     */
    method AddLine(c: Capabilities, line: string, filename: string, pos: nat) returns (added: bool)
      modifies this
      ensures initialized == old(initialized)
      ensures added <==> c.getEventFromRulesLine(line).Some?
      ensures added ==> entries == old(entries) + [Entry(filename, pos, c.getEventFromRulesLine(line).value.0, c.getEventFromRulesLine(line).value.1)]
      ensures !added ==> entries == old(entries)
    {
      var parsed := c.getEventFromRulesLine(line);
      if parsed.Some? {
        var (event, action) := parsed.value;
        entries := entries + [Entry(filename, pos, event, action)];
        return true;
      }
      return false;
    }

    /**
     * `findMatchingRule(event, optimize)`: the position of the first entry
     * whose trigger matches, `|entries|` for `end()`.  The reordering that
     * `optimize` once enabled is disabled, so the cache is never changed.
     */
    method FindMatchingRule(c: Capabilities, event: string, optimize: bool) returns (it: nat)
      ensures it == FirstMatch(c, event, entries, 0)
    {
      it := 0;
      while it < |entries|
        invariant it <= |entries|
        invariant FirstMatch(c, event, entries, 0) == FirstMatch(c, event, entries, it)
      {
        if c.ruleMatch(event, entries[it].event) {
          return it;
        }
        it := it + 1;
      }
    }
  }

  /**
   * Adding a line never hides an earlier rule: a trigger that already matched
   * still wins, and otherwise only the new entry can match.
   */
  lemma AppendKeepsEarlierMatch(c: Capabilities, event: string, entries: seq<Entry>, e: Entry)
    ensures FirstMatch(c, event, entries, 0) < |entries| ==>
      FirstMatch(c, event, entries + [e], 0) == FirstMatch(c, event, entries, 0)
    ensures FirstMatch(c, event, entries, 0) == |entries| ==>
      FirstMatch(c, event, entries + [e], 0) == if c.ruleMatch(event, e.event) then |entries| else |entries| + 1
  {
    var all := entries + [e];
    assert forall k :: 0 <= k < |entries| ==> all[k] == entries[k];
    assert all[|entries|] == e;
  }
}
