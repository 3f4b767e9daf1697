/** The bounded FIFO set of internal/module/agent/application/internal/cache/stringset.go: a ring of
    fixed capacity, a membership set and the index of the slot written next. The specification is the
    history of effective additions; the set is always the last `capacity` of them. */
module BoundedStringSets {

  /** The last `capacity` entries of a history, or all of it while it is shorter. */
  function Window(history: seq<string>, capacity: nat): seq<string> {
    if |history| <= capacity then history else history[|history| - capacity..]
  }

  /** One Add: empty values and values still in the window change nothing. */
  function Accept(history: seq<string>, capacity: nat, value: string): seq<string> {
    if value == "" || value in Window(history, capacity) then history else history + [value]
  }

  /** The history after a series of Add calls. */
  function AcceptAll(history: seq<string>, capacity: nat, values: seq<string>): seq<string> {
    if values == [] then history
    else Accept(AcceptAll(history, capacity, values[..|values| - 1]), capacity, values[|values| - 1])
  }

  /** A history that Add calls can produce: no entry was in the window when it was added, that is,
      entries at most `capacity` apart differ. */
  ghost predicate Genuine(history: seq<string>, capacity: nat) {
    && (forall i :: 0 <= i < |history| ==> history[i] != "")
    && (forall i, j :: 0 <= i < j < |history| && j - i <= capacity ==> history[i] != history[j])
  }

  /** An entry is in the window while at most `capacity - 1` entries follow it. */
  lemma StillInWindow(history: seq<string>, capacity: nat, i: nat, j: nat)
    requires i < j <= |history| && j - i <= capacity
    ensures history[i] in Window(history[..j], capacity)
  {
    var start := if j <= capacity then 0 else j - capacity;
    assert Window(history[..j], capacity)[i - start] == history[i];
  }

  lemma AcceptKeepsGenuine(history: seq<string>, capacity: nat, value: string)
    requires Genuine(history, capacity)
    ensures Genuine(Accept(history, capacity, value), capacity)
  {
    forall i | 0 <= i < |history| && |history| - i <= capacity
      ensures history[i] in Window(history, capacity)
    {
      StillInWindow(history, capacity, i, |history|);
      assert history[..|history|] == history;
    }
  }

  /** Every series of Add calls, from the empty set on, yields a genuine history. */
  lemma {:induction false} AcceptAllKeepsGenuine(history: seq<string>, capacity: nat, values: seq<string>)
    requires Genuine(history, capacity)
    ensures Genuine(AcceptAll(history, capacity, values), capacity)
  {
    if values != [] {
      AcceptAllKeepsGenuine(history, capacity, values[..|values| - 1]);
      AcceptKeepsGenuine(AcceptAll(history, capacity, values[..|values| - 1]), capacity, values[|values| - 1]);
    }
  }

  /** A value survives exactly `capacity - 1` later effective additions: it is still a member while at
      most that many followed it, and it is gone once `capacity` of them did. */
  lemma SurvivesExactly(history: seq<string>, capacity: nat, i: nat, later: nat)
    requires Genuine(history, capacity)
    requires later <= capacity && i + 1 + later <= |history|
    ensures history[i] in Window(history[..i + 1 + later], capacity) <==> later < capacity
  {
    var prefix := history[..i + 1 + later];
    if later < capacity {
      StillInWindow(history, capacity, i, i + 1 + later);
    } else {
      assert Window(prefix, capacity) == prefix[i + 1..];
    }
  }

  /** The window never repeats a value. */
  lemma WindowHasNoDuplicates(history: seq<string>, capacity: nat)
    requires Genuine(history, capacity)
    ensures forall a, b :: 0 <= a < b < |Window(history, capacity)| ==>
              Window(history, capacity)[a] != Window(history, capacity)[b]
  {
  }

  function Blank(n: nat): (blanks: seq<string>) {
    seq(n, _ => "")
  }

  /** What one write at the head does to the ring read from oldest to newest. */
  lemma RotateStep(history: seq<string>, capacity: nat, value: string)
    requires capacity >= 1
    ensures var w := Window(history, capacity);
            var v := Window(history + [value], capacity);
            |w| <= capacity && |v| <= capacity &&
            (Blank(capacity - |w|) + w)[1..] + [value] == Blank(capacity - |v|) + v
  {
  }

  function NextSlot(head: nat, capacity: nat): (next: nat)
    requires head < capacity
    ensures next == if head + 1 == capacity then 0 else head + 1
  {
    (head + 1) % capacity
  }

  /** Overwriting the head slot and moving the head on drops the oldest value and appends the new one. */
  lemma RotationAfterWrite(before: seq<string>, after: seq<string>, head: nat, value: string)
    requires head < |before| && after == before[head := value]
    ensures var next := NextSlot(head, |after|);
            after[next..] + after[..next] == (before[head..] + before[..head])[1..] + [value]
  {
  }

  /** The ring read from the slot written next, that is from oldest to newest. */
  ghost function InOrder(ring: seq<string>, head: nat): seq<string>
    requires head <= |ring|
  {
    ring[head..] + ring[..head]
  }

  /** The ring and the membership set both describe the window of the history. */
  ghost predicate Represents(ring: seq<string>, head: nat, members: set<string>, history: seq<string>) {
    && head < |ring|
    && Genuine(history, |ring|)
    && |Window(history, |ring|)| <= |ring|
    && InOrder(ring, head) == Blank(|ring| - |Window(history, |ring|)|) + Window(history, |ring|)
    && (forall v :: v in members <==> v in Window(history, |ring|))
  }

  function Evict(members: set<string>, oldest: string): set<string> {
    if oldest != "" then members - {oldest} else members
  }

  /** Writing a new value at the head, after dropping the value it displaces, represents one more
      effective addition. */
  lemma WriteAtHead(ring: seq<string>, head: nat, members: set<string>, history: seq<string>, value: string)
    requires Represents(ring, head, members, history)
    requires value != "" && value !in members
    ensures history + [value] == Accept(history, |ring|, value)
    ensures Represents(ring[head := value], NextSlot(head, |ring|), Evict(members, ring[head]) + {value},
                       history + [value])
  {
    var capacity := |ring|;
    var order := InOrder(ring, head);
    assert ring[head] == order[0];
    EvictedIsOldest(history, capacity, value, order[0]);
    RotateStep(history, capacity, value);
    AcceptKeepsGenuine(history, capacity, value);
    EmptyIsNeverMember(history, capacity);
    RotationAfterWrite(ring, ring[head := value], head, value);
  }

  class BoundedStringSet {
    var members: set<string>
    const ring: array<string>
    var head: nat
    const capacity: nat
    ghost var history: seq<string>

    ghost predicate Valid()
      reads this, ring
    {
      1 <= capacity == ring.Length && Represents(ring[..], head, members, history)
    }

    constructor (wanted: int)
      ensures Valid() && fresh(ring)
      ensures history == [] && members == {}
      ensures capacity == if wanted <= 0 then 1 else wanted
    {
      var size: nat := if wanted <= 0 then 1 else wanted;
      capacity := size;
      members := {};
      head := 0;
      history := [];
      ring := new string[size](_ => "");
    }

    method Add(value: string)
      requires Valid()
      modifies this, ring
      ensures Valid()
      ensures history == Accept(old(history), capacity, value)
    {
      if value == "" || value in members {
        return;
      }
      hide Represents, Genuine, Window, InOrder, NextSlot;
      ghost var was, from, had, past := ring[..], head, members, history;
      WriteAtHead(was, from, had, past, value);
      var evicted := ring[head];
      if evicted != "" {
        members := members - {evicted};
      }
      ring[head] := value;
      members := members + {value};
      head := NextSlot(head, capacity);
      history := history + [value];
      assert ring[..] == was[from := value];
    }

    method Contains(value: string) returns (found: bool)
      requires Valid()
      ensures found <==> value in Window(history, capacity)
    {
      if value == "" {
        EmptyIsNeverMember(history, capacity);
        return false;
      }
      return value in members;
    }
  }

  lemma EmptyIsNeverMember(history: seq<string>, capacity: nat)
    requires Genuine(history, capacity)
    ensures "" !in Window(history, capacity)
  {
  }

  /** Dropping the value in the head slot from the set leaves exactly the next window without its
      newest entry. */
  lemma EvictedIsOldest(history: seq<string>, capacity: nat, value: string, oldest: string)
    requires capacity >= 1 && Genuine(history, capacity)
    requires oldest == (Blank(capacity - |Window(history, capacity)|) + Window(history, capacity))[0]
    ensures forall v :: v in Window(history + [value], capacity)
                <==> (v in Window(history, capacity) && v != oldest) || v == value
  {
    var w := Window(history, capacity);
    var next := Window(history + [value], capacity);
    WindowHasNoDuplicates(history, capacity);
    EmptyIsNeverMember(history, capacity);
    if |history| < capacity {
      assert next == w + [value];
    } else {
      assert next == w[1..] + [value];
      assert w == [w[0]] + w[1..];
    }
  }
}
