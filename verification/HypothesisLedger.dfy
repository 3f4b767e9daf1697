/** The hypothesis ledger of a diagnosis run: seedLedger, applyLedgerUpdates and mergeEvidenceRefs of
    internal/module/agent/application/internal/core/hypothesis.go. */
module HypothesisLedger {
  import opened Text

  const MAX_LEDGER_HYPOTHESES := 5
  const MAX_LEDGER_EVIDENCE_REFS := 4

  datatype Option<T> = None | Some(value: T)

  datatype Status = Pending | Confirmed | RuledOut

  datatype Item = Item(id: string, text: string, status: Status, confidence: real, evidence: seq<string>)

  datatype Update = Update(id: string, status: string, confidence: Option<real>, evidence: seq<string>)

  /** The text functions of the library: collapsing white space, and lower case. */
  datatype Words = Words(squeeze: string -> string, lower: string -> string)

  function Decimal(n: nat): string {
    (if n < 10 then "" else Decimal(n / 10)) + [('0' as int + n % 10) as char]
  }

  function NewID(index: nat): string {
    "H" + Decimal(index + 1)
  }

  /** normalizeHypothesisStatus; anything unknown is no status. */
  function NormalizeStatus(value: string, w: Words): Option<Status> {
    var s := w.lower(TrimSpace(value));
    if s == "pending" then Some(Pending)
    else if s in {"confirmed", "confirm", "supported"} then Some(Confirmed)
    else if s in {"ruled_out", "ruledout", "excluded", "rejected"} then Some(RuledOut)
    else None
  }

  /** The words that stand for a status, whatever their case and the white space around them; there are no others. */
  lemma StatusWords(value: string, w: Words)
    ensures var word := w.lower(TrimSpace(value));
            var status := NormalizeStatus(value, w);
            && (status == Some(Pending) <==> word == "pending")
            && (status == Some(Confirmed) <==> word == "confirmed" || word == "confirm" || word == "supported")
            && (status == Some(RuledOut) <==> word == "ruled_out" || word == "ruledout" || word == "excluded" || word == "rejected")
  {
    hide TrimSpace;
  }

  function Clamp(value: real): (r: real)
    ensures 0.0 <= r <= 1.0 && (0.0 <= value <= 1.0 ==> r == value)
    ensures (value < 0.0 ==> r == 0.0) && (value > 1.0 ==> r == 1.0)
  {
    if value < 0.0 then 0.0 else if value > 1.0 then 1.0 else value
  }

  // ---- Seeding -----------------------------------------------------------------------------------------

  function Keys(ledger: seq<Item>, w: Words): set<string> {
    set i | 0 <= i < |ledger| :: w.lower(ledger[i].text)
  }

  function Seed(index: nat, text: string): Item {
    Item(NewID(index), text, Pending, 0.5, [])
  }

  function Add(ledger: seq<Item>, raw: string, w: Words): seq<Item> {
    var text := w.squeeze(raw);
    if text == "" || w.lower(text) in Keys(ledger, w) || |ledger| >= MAX_LEDGER_HYPOTHESES then ledger
    else ledger + [Seed(|ledger|, text)]
  }

  function Seeded(texts: seq<string>, w: Words): seq<Item> {
    if texts == [] then [] else Add(Seeded(texts[..|texts| - 1], w), texts[|texts| - 1], w)
  }

  class Seeding {
    const words: Words
    var ledger: seq<Item>
    var seen: set<string>

    ghost predicate Valid()
      reads this
    {
      seen == Keys(ledger, words)
    }

    constructor (w: Words)
      ensures Valid() && words == w && ledger == []
    {
      words := w;
      ledger := [];
      seen := {};
    }

    method AddText(raw: string)
      requires Valid()
      modifies `ledger, `seen
      ensures Valid() && ledger == Add(old(ledger), raw, words)
    {
      var text := words.squeeze(raw);
      if text == "" {
        return;
      }
      var key := words.lower(text);
      if key in seen || |ledger| >= MAX_LEDGER_HYPOTHESES {
        return;
      }
      seen := seen + {key};
      ledger := ledger + [Seed(|ledger|, text)];
      assert Keys(ledger, words) == Keys(old(ledger), words) + {key} by {
        assert ledger[|ledger| - 1].text == text;
        assert forall i :: 0 <= i < |old(ledger)| ==> ledger[i] == old(ledger)[i];
      }
    }
  }

  /** The plan's hypotheses first, then the playbook's. */
  method SeedLedger(plan: seq<string>, playbook: seq<string>, w: Words) returns (ledger: seq<Item>)
    ensures ledger == Seeded(plan + playbook, w)
  {
    var s := new Seeding(w);
    for i := 0 to |plan|
      invariant s.Valid() && s.words == w && s.ledger == Seeded(plan[..i], w)
    {
      assert plan[..i + 1][..i] == plan[..i];
      s.AddText(plan[i]);
    }
    assert plan[..|plan|] == plan + playbook[..0];
    for i := 0 to |playbook|
      invariant s.Valid() && s.words == w && s.ledger == Seeded(plan + playbook[..i], w)
    {
      assert (plan + playbook[..i + 1])[..|plan| + i] == plan + playbook[..i];
      s.AddText(playbook[i]);
    }
    assert playbook[..|playbook|] == playbook;
    return s.ledger;
  }

  /** At most five hypotheses with their own ids, distinct texts, confidences in range, and at most four
      distinct references each. */
  ghost predicate LedgerOk(ledger: seq<Item>, w: Words) {
    && |ledger| <= MAX_LEDGER_HYPOTHESES
    && (forall i :: 0 <= i < |ledger| ==> ledger[i].id == NewID(i) && ledger[i].text != "")
    && (forall i, j :: 0 <= i < j < |ledger| ==> w.lower(ledger[i].text) != w.lower(ledger[j].text))
    && (forall i :: 0 <= i < |ledger| ==> 0.0 <= ledger[i].confidence <= 1.0 && RefsOk(ledger[i].evidence))
  }

  predicate RefsOk(refs: seq<string>) {
    && |refs| <= MAX_LEDGER_EVIDENCE_REFS
    && (forall r :: r in refs ==> r != "" && Trimmed(r))
    && (forall i, j :: 0 <= i < j < |refs| ==> refs[i] != refs[j])
  }

  lemma {:induction false} SeededIsOk(texts: seq<string>, w: Words)
    ensures LedgerOk(Seeded(texts, w), w)
  {
    if texts != [] {
      SeededIsOk(texts[..|texts| - 1], w);
    }
  }

  /** Every hypothesis is some text that was given, squeezed; it is pending, neutral and without evidence, and stands
      right behind those that the texts before it gave. */
  lemma {:induction false} SeededItem(texts: seq<string>, w: Words, i: nat) returns (n: nat)
    requires i < |Seeded(texts, w)|
    ensures n < |texts| && |Seeded(texts[..n], w)| == i
    ensures Seeded(texts, w)[i] == Item(NewID(i), w.squeeze(texts[n]), Pending, 0.5, [])
    ensures w.squeeze(texts[n]) != "" && w.lower(w.squeeze(texts[n])) !in Keys(Seeded(texts[..n], w), w)
  {
    hide NewID, Keys;
    var init := texts[..|texts| - 1];
    if i < |Seeded(init, w)| {
      n := SeededItem(init, w, i);
      assert init[..n] == texts[..n];
    } else {
      n := |texts| - 1;
    }
  }

  lemma IDsOfFive()
    ensures NewID(0) == "H1" && NewID(1) == "H2" && NewID(2) == "H3" && NewID(3) == "H4" && NewID(4) == "H5"
  {
    assert Decimal(1) == "1" && Decimal(2) == "2" && Decimal(3) == "3" && Decimal(4) == "4" && Decimal(5) == "5";
  }

  /** Ids are unique: the first five are H1 to H5. */
  lemma IDsAreUnique(ledger: seq<Item>, w: Words, i: nat, j: nat)
    requires LedgerOk(ledger, w) && i < |ledger| && j < |ledger| && ledger[i].id == ledger[j].id
    ensures i == j
  {
    assert NewID(i)[1] == ('0' as int + i + 1) as char && NewID(j)[1] == ('0' as int + j + 1) as char;
  }

  /** More texts only append to the ledger: hypotheses stand in the order of their first mention. */
  lemma {:induction false} SeededGrows(texts: seq<string>, w: Words, n: nat)
    requires n <= |texts|
    ensures Seeded(texts[..n], w) <= Seeded(texts, w)
  {
    if n < |texts| {
      SeededGrows(texts[..|texts| - 1], w, n);
      assert texts[..|texts| - 1][..n] == texts[..n];
    } else {
      assert texts[..n] == texts;
    }
  }

  /** A text that is not blank is in the ledger, up to case, unless the ledger is full of earlier ones. */
  lemma SeededCovers(texts: seq<string>, w: Words, n: nat)
    requires n < |texts| && w.squeeze(texts[n]) != ""
    ensures w.lower(w.squeeze(texts[n])) in Keys(Seeded(texts[..n + 1], w), w)
            || |Seeded(texts[..n], w)| == 5
  {
    SeededIsOk(texts[..n], w);
    assert texts[..n + 1][..n] == texts[..n];
    var before, after := Seeded(texts[..n], w), Seeded(texts[..n + 1], w);
    if after != before {
      assert after[|before|].text == w.squeeze(texts[n]);
    }
  }

  // ---- Merging evidence --------------------------------------------------------------------------------

  function NonEmpty(refs: seq<string>): seq<string> {
    if refs == [] then []
    else
      var init, last := NonEmpty(refs[..|refs| - 1]), refs[|refs| - 1];
      if last == "" then init else init + [last]
  }

  /** The incoming references from position `i` on, appended until the cap is reached. */
  function Extend(refs: seq<string>, incoming: seq<string>, i: nat): seq<string>
    requires i <= |incoming|
    decreases |incoming| - i
  {
    if i == |incoming| then refs
    else
      var ref := TrimSpace(incoming[i]);
      if ref == "" || ref in refs then Extend(refs, incoming, i + 1)
      else if |refs| >= MAX_LEDGER_EVIDENCE_REFS then refs
      else Extend(refs + [ref], incoming, i + 1)
  }

  function Merge(existing: seq<string>, incoming: seq<string>): Option<seq<string>> {
    var kept := NonEmpty(existing);
    var merged := Extend(kept, incoming, 0);
    if |merged| == |kept| then None else Some(merged)
  }

  lemma {:induction false} ExtendGrows(refs: seq<string>, incoming: seq<string>, i: nat)
    requires i <= |incoming|
    ensures refs <= Extend(refs, incoming, i)
    decreases |incoming| - i
  {
    hide TrimSpace;
    if i < |incoming| {
      var ref := TrimSpace(incoming[i]);
      if ref == "" || ref in refs {
        ExtendGrows(refs, incoming, i + 1);
      } else if |refs| < MAX_LEDGER_EVIDENCE_REFS {
        ExtendGrows(refs + [ref], incoming, i + 1);
      }
    }
  }

  /** The references that are new, trimmed, in the order they are first mentioned. */
  function NewRefs(refs: seq<string>, incoming: seq<string>): seq<string> {
    if incoming == [] then []
    else
      var init, ref := NewRefs(refs, incoming[..|incoming| - 1]), TrimSpace(incoming[|incoming| - 1]);
      if ref == "" || ref in refs || ref in init then init else init + [ref]
  }

  /** They are exactly the nonblank references mentioned that were not there, each once; a later mention comes later. */
  lemma {:induction false} NewRefsExactly(refs: seq<string>, incoming: seq<string>)
    ensures forall r :: r in NewRefs(refs, incoming) <==> r != "" && r !in refs && Mentions(incoming, r)
    ensures forall i, j :: 0 <= i < j < |NewRefs(refs, incoming)| ==> NewRefs(refs, incoming)[i] != NewRefs(refs, incoming)[j]
    ensures forall n :: 0 <= n <= |incoming| ==> NewRefs(refs, incoming[..n]) <= NewRefs(refs, incoming)
  {
    hide TrimSpace;
    if incoming == [] {
      assert incoming[..0] == incoming;
    } else {
      var init, last := incoming[..|incoming| - 1], incoming[|incoming| - 1];
      NewRefsExactly(refs, init);
      forall r ensures Mentions(incoming, r) <==> Mentions(init, r) || TrimSpace(last) == r {
        assert incoming == init + [last];
        MentionsSnoc(init, last, r);
      }
      forall n | 0 <= n <= |incoming| ensures NewRefs(refs, incoming[..n]) <= NewRefs(refs, incoming) {
        assert if n < |incoming| then incoming[..n] == init[..n] else incoming[..n] == incoming;
      }
    }
  }

  ghost predicate Mentions(incoming: seq<string>, r: string) {
    exists j :: 0 <= j < |incoming| && TrimSpace(incoming[j]) == r
  }

  lemma MentionsSnoc(init: seq<string>, last: string, r: string)
    ensures Mentions(init + [last], r) <==> Mentions(init, r) || TrimSpace(last) == r
  {
    hide TrimSpace;
    var all := init + [last];
    assert all[|init|] == last;
    if j :| 0 <= j < |init| && TrimSpace(init[j]) == r {
      assert all[j] == init[j];
    }
  }

  function FirstFour(refs: seq<string>): seq<string> {
    if |refs| <= 4 then refs else refs[..4]
  }

  lemma {:induction false} ExtendTakesInOrder(refs: seq<string>, incoming: seq<string>, i: nat)
    requires i <= |incoming| && |refs| <= 4
    ensures Extend(FirstFour(refs + NewRefs(refs, incoming[..i])), incoming, i) == FirstFour(refs + NewRefs(refs, incoming))
    decreases |incoming| - i
  {
    hide TrimSpace;
    if i == |incoming| {
      assert incoming[..i] == incoming;
    } else {
      ExtendTakesInOrder(refs, incoming, i + 1);
      assert incoming[..i + 1][..i] == incoming[..i];
      NewRefsExactly(refs, incoming);
      var all := refs + NewRefs(refs, incoming[..i]);
      var ref := TrimSpace(incoming[i]);
      if |all| >= 4 {
        FullStaysFull(FirstFour(all), incoming, i);
        assert all <= refs + NewRefs(refs, incoming);
      } else if ref != "" && ref !in all {
        assert all + [ref] == refs + NewRefs(refs, incoming[..i + 1]);
      }
    }
  }

  lemma {:induction false} FullStaysFull(refs: seq<string>, incoming: seq<string>, i: nat)
    requires i <= |incoming| && |refs| >= 4
    ensures Extend(refs, incoming, i) == refs
    decreases |incoming| - i
  {
    hide TrimSpace;
    if i < |incoming| {
      FullStaysFull(refs, incoming, i + 1);
    }
  }

  /** The merge appends the new references in the order of their first mention while there is room for them, and
      answers nothing when there is none to append. */
  lemma MergeTakesInOrder(existing: seq<string>, incoming: seq<string>)
    requires RefsOk(existing)
    ensures var added := NewRefs(existing, incoming);
            Merge(existing, incoming) == if added == [] || |existing| == 4 then None else Some(FirstFour(existing + added))
  {
    hide TrimSpace, Extend, NewRefs;
    NonEmptyKeeps(existing);
    assert incoming[..0] == [] && existing + [] == existing;
    NoNewRefs(existing);
    ExtendTakesInOrder(existing, incoming, 0);
  }

  lemma NoNewRefs(refs: seq<string>)
    ensures NewRefs(refs, []) == []
  {
  }

  method MergeEvidenceRefs(existing: seq<string>, incoming: seq<string>) returns (r: Option<seq<string>>)
    ensures r == Merge(existing, incoming)
  {
    hide TrimSpace;
    if |incoming| == 0 {
      return None;
    }
    var seen: set<string>, out: seq<string> := {}, [];
    for i := 0 to |existing|
      invariant out == NonEmpty(existing[..i]) && forall ref :: ref in seen <==> ref in out
    {
      assert existing[..i + 1][..i] == existing[..i];
      if existing[i] != "" {
        seen := seen + {existing[i]};
        out := out + [existing[i]];
      }
    }
    assert existing[..|existing|] == existing;
    ghost var kept := out;
    var added := false;
    for i := 0 to |incoming|
      invariant Extend(kept, incoming, 0) == Extend(out, incoming, i)
      invariant forall ref :: ref in seen <==> ref in out
      invariant |out| >= |kept| && (added <==> |out| > |kept|)
    {
      var ref := TrimSpace(incoming[i]);
      if ref == "" || ref in seen {
        continue;
      }
      if |out| >= MAX_LEDGER_EVIDENCE_REFS {
        break;
      }
      seen := seen + {ref};
      out := out + [ref];
      added := true;
    }
    return if added then Some(out) else None;
  }

  // ---- Updates ------------------------------------------------------------------------------------------

  function ApplyToItem(item: Item, u: Update, w: Words): Item {
    var status := NormalizeStatus(u.status, w);
    var merged := Merge(item.evidence, u.evidence);
    Item(item.id, item.text,
         if status.Some? then status.value else item.status,
         if u.confidence.Some? then Clamp(u.confidence.value) else item.confidence,
         if merged.Some? then merged.value else item.evidence)
  }

  /** The position an id is indexed at: its last one. */
  function IndexOf(ledger: seq<Item>, id: string): (r: Option<nat>)
    ensures r.Some? ==> r.value < |ledger| && ledger[r.value].id == id
    ensures r.None? ==> forall i :: 0 <= i < |ledger| ==> ledger[i].id != id
  {
    if ledger == [] then None
    else if ledger[|ledger| - 1].id == id then Some(|ledger| - 1)
    else IndexOf(ledger[..|ledger| - 1], id)
  }

  function Apply(ledger: seq<Item>, u: Update, w: Words): seq<Item> {
    match IndexOf(ledger, TrimSpace(u.id))
    case None => ledger
    case Some(pos) => ledger[pos := ApplyToItem(ledger[pos], u, w)]
  }

  function ApplyAll(ledger: seq<Item>, updates: seq<Update>, w: Words): (r: seq<Item>)
    ensures |r| == |ledger|
  {
    if updates == [] then ledger
    else Apply(ApplyAll(ledger, updates[..|updates| - 1], w), updates[|updates| - 1], w)
  }

  /** Some update of the list changed the ledger when its turn came. */
  predicate SomeChange(ledger: seq<Item>, updates: seq<Update>, w: Words) {
    exists n :: 0 <= n < |updates| && ApplyAll(ledger, updates[..n + 1], w) != ApplyAll(ledger, updates[..n], w)
  }

  predicate SameNames(a: seq<Item>, b: seq<Item>) {
    |a| == |b| && forall i :: 0 <= i < |a| ==> a[i].id == b[i].id && a[i].text == b[i].text
  }

  lemma {:induction false} SameIndex(a: seq<Item>, b: seq<Item>, id: string)
    requires SameNames(a, b)
    ensures IndexOf(a, id) == IndexOf(b, id)
  {
    if a != [] {
      SameIndex(a[..|a| - 1], b[..|b| - 1], id);
    }
  }

  lemma {:induction false} ApplyAllKeepsNames(ledger: seq<Item>, updates: seq<Update>, w: Words)
    ensures SameNames(ledger, ApplyAll(ledger, updates, w))
  {
    hide ApplyToItem, TrimSpace, IndexOf;
    if updates != [] {
      ApplyAllKeepsNames(ledger, updates[..|updates| - 1], w);
      ApplyKeepsNames(ApplyAll(ledger, updates[..|updates| - 1], w), updates[|updates| - 1], w);
    }
  }

  lemma ApplyKeepsNames(ledger: seq<Item>, u: Update, w: Words)
    ensures SameNames(ledger, Apply(ledger, u, w))
  {
    hide TrimSpace, Merge, NormalizeStatus;
  }

  lemma {:induction false} NonEmptyKeeps(refs: seq<string>)
    ensures "" !in NonEmpty(refs) && ("" !in refs ==> NonEmpty(refs) == refs)
  {
    if refs != [] {
      NonEmptyKeeps(refs[..|refs| - 1]);
      assert refs == refs[..|refs| - 1] + [refs[|refs| - 1]];
    }
  }

  lemma {:induction false} ExtendAddsNoBlank(refs: seq<string>, incoming: seq<string>, i: nat)
    requires i <= |incoming| && "" !in refs
    ensures "" !in Extend(refs, incoming, i)
    decreases |incoming| - i
  {
    hide TrimSpace;
    if i < |incoming| {
      var ref := TrimSpace(incoming[i]);
      if ref == "" || ref in refs {
        ExtendAddsNoBlank(refs, incoming, i + 1);
      } else if |refs| < MAX_LEDGER_EVIDENCE_REFS {
        ExtendAddsNoBlank(refs + [ref], incoming, i + 1);
      }
    }
  }

  /** A merge that adds something is a change. */
  lemma MergeChanges(existing: seq<string>, incoming: seq<string>)
    ensures Merge(existing, incoming).Some? ==> Merge(existing, incoming).value != existing
  {
    NonEmptyKeeps(existing);
    ExtendAddsNoBlank(NonEmpty(existing), incoming, 0);
  }

  method IndexIDs(ledger: array<Item>) returns (index: map<string, nat>)
    ensures forall id :: id in index <==> IndexOf(ledger[..], id).Some?
    ensures forall id :: id in index ==> index[id] == IndexOf(ledger[..], id).value
  {
    index := map[];
    for i := 0 to ledger.Length
      invariant forall id :: id in index <==> IndexOf(ledger[..i], id).Some?
      invariant forall id :: id in index ==> index[id] == IndexOf(ledger[..i], id).value
    {
      assert ledger[..i + 1][..i] == ledger[..i];
      index := index[ledger[i].id := i];
    }
    assert ledger[..ledger.Length] == ledger[..];
  }

  /** The fields of one item, one after the other; `changed` says whether any of them moved. */
  method UpdateItem(item: Item, u: Update, w: Words) returns (updated: Item, changed: bool)
    ensures updated == ApplyToItem(item, u, w) && (changed <==> updated != item)
    ensures updated.id == item.id && updated.text == item.text
    ensures updated.status == if NormalizeStatus(u.status, w).Some? then NormalizeStatus(u.status, w).value else item.status
    ensures updated.confidence == if u.confidence.Some? then Clamp(u.confidence.value) else item.confidence
    ensures updated.evidence == if Merge(item.evidence, u.evidence).Some? then Merge(item.evidence, u.evidence).value else item.evidence
  {
    hide TrimSpace, Extend;
    updated, changed := item, false;
    var status := NormalizeStatus(u.status, w);
    if status.Some? && status.value != updated.status {
      updated, changed := updated.(status := status.value), true;
    }
    if u.confidence.Some? {
      var confidence := Clamp(u.confidence.value);
      if confidence != updated.confidence {
        updated, changed := updated.(confidence := confidence), true;
      }
    }
    MergeChanges(item.evidence, u.evidence);
    var merged := MergeEvidenceRefs(updated.evidence, u.evidence);
    if merged.Some? {
      updated, changed := updated.(evidence := merged.value), true;
    }
  }

  /** One update at its turn; an unknown id is ignored. */
  method ApplyUpdate(ledger: array<Item>, index: map<string, nat>, u: Update, w: Words) returns (moved: bool)
    requires forall id :: id in index <==> IndexOf(ledger[..], id).Some?
    requires forall id :: id in index ==> index[id] == IndexOf(ledger[..], id).value
    modifies ledger
    ensures ledger[..] == Apply(old(ledger[..]), u, w)
    ensures moved <==> ledger[..] != old(ledger[..])
  {
    hide TrimSpace, ApplyToItem, IndexOf;
    var id := TrimSpace(u.id);
    if id !in index {
      return false;
    }
    var pos := index[id];
    ghost var before := ledger[..];
    var updated, changed := UpdateItem(ledger[pos], u, w);
    ledger[pos] := updated;
    assert ledger[..] == before[pos := updated];
    assert ledger[pos] == ledger[..][pos];
    return changed;
  }

  method ApplyLedgerUpdates(ledger: array<Item>, updates: seq<Update>, w: Words) returns (changed: bool)
    modifies ledger
    ensures ledger[..] == ApplyAll(old(ledger[..]), updates, w)
    ensures changed <==> SomeChange(old(ledger[..]), updates, w)
  {
    hide IndexOf, Apply;
    var index := IndexIDs(ledger);
    changed := false;
    ghost var start := ledger[..];
    assert ledger[..] == ApplyAll(start, updates[..0], w);
    for n := 0 to |updates|
      invariant ledger[..] == ApplyAll(start, updates[..n], w)
      invariant changed <==> exists m :: 0 <= m < n && ApplyAll(start, updates[..m + 1], w) != ApplyAll(start, updates[..m], w)
    {
      assert updates[..n + 1][..n] == updates[..n];
      ApplyAllKeepsNames(start, updates[..n], w);
      forall id ensures IndexOf(start, id) == IndexOf(ledger[..], id) {
        SameIndex(start, ledger[..], id);
      }
      var moved := ApplyUpdate(ledger, index, updates[n], w);
      changed := changed || moved;
      assert ledger[..] == ApplyAll(start, updates[..n + 1], w);
    }
    assert updates[..|updates|] == updates;
  }

  // ---- What holds over every series of updates ---------------------------------------------------------------

  lemma {:induction false} ExtendKeepsRefsOk(refs: seq<string>, incoming: seq<string>, i: nat)
    requires i <= |incoming| && RefsOk(refs)
    ensures RefsOk(Extend(refs, incoming, i))
    decreases |incoming| - i
  {
    hide TrimSpace;
    if i < |incoming| {
      var ref := TrimSpace(incoming[i]);
      if ref == "" || ref in refs {
        ExtendKeepsRefsOk(refs, incoming, i + 1);
      } else if |refs| < MAX_LEDGER_EVIDENCE_REFS {
        ExtendKeepsRefsOk(refs + [ref], incoming, i + 1);
      }
    }
  }

  /** References are only ever added, at the end. */
  lemma MergeKeepsRefs(existing: seq<string>, incoming: seq<string>)
    requires RefsOk(existing)
    ensures var r := Merge(existing, incoming); r.Some? ==> RefsOk(r.value) && existing <= r.value
  {
    NonEmptyKeeps(existing);
    ExtendKeepsRefsOk(existing, incoming, 0);
    ExtendGrows(existing, incoming, 0);
  }

  /** `later` is the same hypothesis with at least the same evidence. */
  predicate Continues(item: Item, later: Item) {
    later.id == item.id && later.text == item.text && item.evidence <= later.evidence
  }

  lemma ApplyKeepsOk(ledger: seq<Item>, u: Update, w: Words)
    requires LedgerOk(ledger, w)
    ensures LedgerOk(Apply(ledger, u, w), w)
    ensures forall i :: 0 <= i < |ledger| ==> Continues(ledger[i], Apply(ledger, u, w)[i])
  {
    hide TrimSpace, Merge, NormalizeStatus, RefsOk;
    var found := IndexOf(ledger, TrimSpace(u.id));
    if found.Some? {
      MergeKeepsRefs(ledger[found.value].evidence, u.evidence);
    }
  }

  lemma {:induction false} ApplyAllKeepsOk(ledger: seq<Item>, updates: seq<Update>, w: Words)
    requires LedgerOk(ledger, w)
    ensures LedgerOk(ApplyAll(ledger, updates, w), w)
    ensures forall i :: 0 <= i < |ledger| ==> Continues(ledger[i], ApplyAll(ledger, updates, w)[i])
  {
    hide LedgerOk, Apply;
    if updates != [] {
      var init := updates[..|updates| - 1];
      ApplyAllKeepsOk(ledger, init, w);
      ApplyKeepsOk(ApplyAll(ledger, init, w), updates[|updates| - 1], w);
    }
  }

  function ApplySeries(ledger: seq<Item>, series: seq<seq<Update>>, w: Words): (r: seq<Item>)
    ensures |r| == |ledger|
  {
    if series == [] then ledger
    else ApplyAll(ApplySeries(ledger, series[..|series| - 1], w), series[|series| - 1], w)
  }

  /** From any seeded ledger, every series of update lists keeps the hypotheses and their ids, at most five of
      them, confidences in range, and at most four distinct references each, none of which is ever lost. */
  lemma {:induction false} SeriesKeepsLedger(texts: seq<string>, series: seq<seq<Update>>, w: Words)
    ensures var start, now := Seeded(texts, w), ApplySeries(Seeded(texts, w), series, w);
            LedgerOk(now, w) && forall i :: 0 <= i < |start| ==> Continues(start[i], now[i])
  {
    hide LedgerOk, Seeded, ApplyAll;
    SeededIsOk(texts, w);
    if series != [] {
      SeriesKeepsLedger(texts, series[..|series| - 1], w);
      ApplyAllKeepsOk(ApplySeries(Seeded(texts, w), series[..|series| - 1], w), series[|series| - 1], w);
    }
  }

  // ---- Applying a list twice ----------------------------------------------------------------------------------

  /** One hypothesis seen on its own: only updates under its id reach it. */
  function ItemAfter(item: Item, updates: seq<Update>, w: Words): Item {
    if updates == [] then item
    else
      var before, last := ItemAfter(item, updates[..|updates| - 1], w), updates[|updates| - 1];
      if TrimSpace(last.id) == item.id then ApplyToItem(before, last, w) else before
  }

  lemma {:induction false} ApplyAllIsItemwise(ledger: seq<Item>, updates: seq<Update>, w: Words, i: nat)
    requires LedgerOk(ledger, w) && i < |ledger|
    ensures ApplyAll(ledger, updates, w)[i] == ItemAfter(ledger[i], updates, w)
  {
    hide TrimSpace, ApplyToItem;
    if updates != [] {
      var init, last := updates[..|updates| - 1], updates[|updates| - 1];
      ApplyAllIsItemwise(ledger, init, w, i);
      ApplyAllKeepsOk(ledger, init, w);
      var before := ApplyAll(ledger, init, w);
      var found := IndexOf(before, TrimSpace(last.id));
      if found.Some? && before[found.value].id == before[i].id {
        IDsAreUnique(before, w, found.value, i);
      }
    }
  }

  function LastStatus(id: string, updates: seq<Update>, w: Words): Option<Status> {
    if updates == [] then None
    else
      var last := updates[|updates| - 1];
      if TrimSpace(last.id) == id && NormalizeStatus(last.status, w).Some? then NormalizeStatus(last.status, w)
      else LastStatus(id, updates[..|updates| - 1], w)
  }

  function LastConfidence(id: string, updates: seq<Update>): Option<real> {
    if updates == [] then None
    else
      var last := updates[|updates| - 1];
      if TrimSpace(last.id) == id && last.confidence.Some? then Some(Clamp(last.confidence.value))
      else LastConfidence(id, updates[..|updates| - 1])
  }

  /** The last recognizable status and the last confidence given for an id win. */
  lemma {:induction false} LastOnesWin(item: Item, updates: seq<Update>, w: Words)
    ensures var after := ItemAfter(item, updates, w);
            && after.id == item.id && after.text == item.text
            && after.status == (if LastStatus(item.id, updates, w).Some? then LastStatus(item.id, updates, w).value else item.status)
            && after.confidence == (if LastConfidence(item.id, updates).Some? then LastConfidence(item.id, updates).value else item.confidence)
  {
    hide TrimSpace, NormalizeStatus, Merge;
    if updates != [] {
      LastOnesWin(item, updates[..|updates| - 1], w);
    }
  }

  /** Nothing in `incoming` could still be added. */
  ghost predicate Closed(refs: seq<string>, incoming: seq<string>) {
    |refs| >= MAX_LEDGER_EVIDENCE_REFS || forall r :: r in incoming ==> TrimSpace(r) == "" || TrimSpace(r) in refs
  }

  lemma {:induction false} ExtendCloses(refs: seq<string>, incoming: seq<string>, i: nat)
    requires i <= |incoming|
    ensures Closed(Extend(refs, incoming, i), incoming[i..])
    decreases |incoming| - i
  {
    hide TrimSpace;
    if i < |incoming| {
      var ref := TrimSpace(incoming[i]);
      assert incoming[i..] == [incoming[i]] + incoming[i + 1..];
      if ref == "" || ref in refs {
        ExtendCloses(refs, incoming, i + 1);
        ExtendGrows(refs, incoming, i + 1);
      } else if |refs| < MAX_LEDGER_EVIDENCE_REFS {
        ExtendCloses(refs + [ref], incoming, i + 1);
        ExtendGrows(refs + [ref], incoming, i + 1);
        assert (refs + [ref])[|refs|] == ref;
      }
    }
  }

  lemma {:induction false} ClosedAddsNothing(refs: seq<string>, incoming: seq<string>, i: nat)
    requires i <= |incoming| && Closed(refs, incoming)
    ensures Extend(refs, incoming, i) == refs
    decreases |incoming| - i
  {
    hide TrimSpace;
    if i < |incoming| {
      assert incoming[i] in incoming;
      ClosedAddsNothing(refs, incoming, i + 1);
    }
  }

  lemma ClosedStays(refs: seq<string>, more: seq<string>, incoming: seq<string>)
    requires Closed(refs, incoming) && refs <= more
    ensures Closed(more, incoming)
  {
    hide TrimSpace;
    assert forall r :: r in refs ==> r in more;
  }

  ghost predicate ClosedUnder(item: Item, refs: seq<string>, updates: seq<Update>) {
    forall u :: u in updates && TrimSpace(u.id) == item.id ==> Closed(refs, u.evidence)
  }

  lemma EvidenceStep(refs: seq<string>, incoming: seq<string>)
    requires RefsOk(refs)
    ensures var merged := Merge(refs, incoming);
            var after := if merged.Some? then merged.value else refs;
            RefsOk(after) && refs <= after && Closed(after, incoming)
  {
    MergeKeepsRefs(refs, incoming);
    NonEmptyKeeps(refs);
    ExtendCloses(refs, incoming, 0);
    ExtendGrows(refs, incoming, 0);
    hide TrimSpace, Closed, RefsOk, Extend, NonEmpty;
    assert incoming[0..] == incoming;
  }

  lemma {:induction false} EvidenceCloses(item: Item, updates: seq<Update>, w: Words)
    requires RefsOk(item.evidence)
    ensures var after := ItemAfter(item, updates, w); RefsOk(after.evidence) && ClosedUnder(item, after.evidence, updates)
  {
    hide TrimSpace, NormalizeStatus, Merge, Closed, RefsOk;
    if updates != [] {
      var init, last := updates[..|updates| - 1], updates[|updates| - 1];
      var before := ItemAfter(item, init, w);
      var after := ItemAfter(item, updates, w);
      EvidenceCloses(item, init, w);
      EvidenceStep(before.evidence, last.evidence);
      forall u | u in updates && TrimSpace(u.id) == item.id ensures Closed(after.evidence, u.evidence) {
        if u in init {
          ClosedStays(before.evidence, after.evidence, u.evidence);
        }
      }
    }
  }

  lemma {:induction false} ClosedEvidenceStays(item: Item, updates: seq<Update>, w: Words)
    requires RefsOk(item.evidence) && ClosedUnder(item, item.evidence, updates)
    ensures ItemAfter(item, updates, w).evidence == item.evidence && ItemAfter(item, updates, w).id == item.id
  {
    hide TrimSpace, NormalizeStatus, Closed, RefsOk, Extend;
    if updates != [] {
      var init, last := updates[..|updates| - 1], updates[|updates| - 1];
      assert forall u :: u in init ==> u in updates;
      ClosedEvidenceStays(item, init, w);
      NothingToMerge(item.evidence, last.evidence);
    }
  }

  lemma NothingToMerge(refs: seq<string>, incoming: seq<string>)
    requires RefsOk(refs)
    ensures Closed(refs, incoming) ==> Merge(refs, incoming) == None
  {
    NonEmptyKeeps(refs);
    if Closed(refs, incoming) {
      ClosedAddsNothing(refs, incoming, 0);
    }
  }

  /** Applying the same update list twice gives the same ledger as applying it once, also when several updates
      of the list name one hypothesis. */
  lemma ApplyingTwiceIsApplyingOnce(ledger: seq<Item>, updates: seq<Update>, w: Words)
    requires LedgerOk(ledger, w)
    ensures ApplyAll(ApplyAll(ledger, updates, w), updates, w) == ApplyAll(ledger, updates, w)
  {
    var once := ApplyAll(ledger, updates, w);
    ApplyAllKeepsOk(ledger, updates, w);
    forall i | 0 <= i < |ledger| ensures ApplyAll(once, updates, w)[i] == once[i] {
      ApplyAllIsItemwise(ledger, updates, w, i);
      ApplyAllIsItemwise(once, updates, w, i);
      LastOnesWin(ledger[i], updates, w);
      LastOnesWin(once[i], updates, w);
      EvidenceCloses(ledger[i], updates, w);
      ClosedEvidenceStays(once[i], updates, w);
    }
  }

  // ---- What the reported change means ---------------------------------------------------------------------------

  /** An update says nothing new about a hypothesis as it stands. */
  ghost predicate NothingNew(item: Item, u: Update, w: Words) {
    TrimSpace(u.id) == item.id ==>
      && NormalizeStatus(u.status, w) in {None, Some(item.status)}
      && (u.confidence == None || Clamp(u.confidence.value) == item.confidence)
      && Closed(item.evidence, u.evidence)
  }

  ghost predicate AllOld(ledger: seq<Item>, u: Update, w: Words) {
    forall i :: 0 <= i < |ledger| ==> NothingNew(ledger[i], u, w)
  }

  lemma MergeNothingIffClosed(refs: seq<string>, incoming: seq<string>)
    requires RefsOk(refs)
    ensures Merge(refs, incoming) == None <==> Closed(refs, incoming)
  {
    hide TrimSpace, Closed, RefsOk, Extend, NonEmpty;
    NothingToMerge(refs, incoming);
    EvidenceStep(refs, incoming);
  }

  lemma SameItemIffNothingNew(item: Item, u: Update, w: Words)
    requires RefsOk(item.evidence) && TrimSpace(u.id) == item.id
    ensures ApplyToItem(item, u, w) == item <==> NothingNew(item, u, w)
  {
    hide TrimSpace, Closed, RefsOk, Merge, NormalizeStatus;
    MergeNothingIffClosed(item.evidence, u.evidence);
    MergeChanges(item.evidence, u.evidence);
  }

  /** One update leaves the ledger as it is exactly when it says nothing new about the hypothesis it names. */
  lemma SameLedgerIffAllOld(ledger: seq<Item>, u: Update, w: Words)
    requires LedgerOk(ledger, w)
    ensures Apply(ledger, u, w) == ledger <==> AllOld(ledger, u, w)
  {
    hide TrimSpace, Closed, NormalizeStatus, ApplyToItem;
    var id := TrimSpace(u.id);
    var found := IndexOf(ledger, id);
    if found.Some? {
      var pos := found.value;
      SameItemIffNothingNew(ledger[pos], u, w);
      forall i | 0 <= i < |ledger| && i != pos ensures ledger[i].id != id {
        if ledger[i].id == id {
          IDsAreUnique(ledger, w, i, pos);
        }
      }
      assert Apply(ledger, u, w) == ledger <==> ApplyToItem(ledger[pos], u, w) == ledger[pos] by {
        assert ledger[pos := ApplyToItem(ledger[pos], u, w)][pos] == ApplyToItem(ledger[pos], u, w);
      }
    }
  }

  lemma {:induction false} AllOldKeepsLedger(ledger: seq<Item>, updates: seq<Update>, w: Words)
    requires LedgerOk(ledger, w) && forall u :: u in updates ==> AllOld(ledger, u, w)
    ensures ApplyAll(ledger, updates, w) == ledger
  {
    hide Apply, AllOld, LedgerOk;
    if updates != [] {
      var init, last := updates[..|updates| - 1], updates[|updates| - 1];
      assert last in updates && forall u :: u in init ==> u in updates;
      AllOldKeepsLedger(ledger, init, w);
      SameLedgerIffAllOld(ledger, last, w);
    }
  }

  lemma NothingMovesIfAllOld(ledger: seq<Item>, updates: seq<Update>, w: Words)
    requires LedgerOk(ledger, w) && forall u :: u in updates ==> AllOld(ledger, u, w)
    ensures !SomeChange(ledger, updates, w)
  {
    hide ApplyAll, AllOld, LedgerOk;
    forall n | 0 <= n <= |updates| ensures ApplyAll(ledger, updates[..n], w) == ledger {
      assert forall u :: u in updates[..n] ==> u in updates;
      AllOldKeepsLedger(ledger, updates[..n], w);
    }
  }

  /** The first `n` updates change nothing when no turn does. */
  lemma {:induction false} NoTurnNoChange(ledger: seq<Item>, updates: seq<Update>, w: Words, n: nat)
    requires !SomeChange(ledger, updates, w) && n <= |updates|
    ensures ApplyAll(ledger, updates[..n], w) == ledger
  {
    if n > 0 {
      NoTurnNoChange(ledger, updates, w, n - 1);
      var m := n - 1;
      assert ApplyAll(ledger, updates[..m + 1], w) == ApplyAll(ledger, updates[..m], w);
    }
  }

  /** The flag is right when it is not set: the ledger is as it was. */
  lemma NoChangeReported(ledger: seq<Item>, updates: seq<Update>, w: Words)
    requires !SomeChange(ledger, updates, w)
    ensures ApplyAll(ledger, updates, w) == ledger
  {
    hide ApplyAll, SomeChange;
    NoTurnNoChange(ledger, updates, w, |updates|);
    assert updates[..|updates|] == updates;
  }

  lemma SomethingNewMoves(ledger: seq<Item>, updates: seq<Update>, w: Words, n: nat)
    requires LedgerOk(ledger, w) && n < |updates| && !AllOld(ledger, updates[n], w)
    ensures SomeChange(ledger, updates, w)
  {
    hide AllOld, LedgerOk, Apply, SomeChange;
    if !SomeChange(ledger, updates, w) {
      NoTurnNoChange(ledger, updates, w, n);
      NoTurnNoChange(ledger, updates, w, n + 1);
      assert updates[..n + 1][..n] == updates[..n];
      SameLedgerIffAllOld(ledger, updates[n], w);
    }
  }

  /** The flag is set exactly when some update of the list says something new about the ledger as it was given. */
  lemma ReportedIffSomethingNew(ledger: seq<Item>, updates: seq<Update>, w: Words)
    requires LedgerOk(ledger, w)
    ensures SomeChange(ledger, updates, w) <==> exists u :: u in updates && !AllOld(ledger, u, w)
  {
    hide AllOld, LedgerOk, SomeChange;
    if u :| u in updates && !AllOld(ledger, u, w) {
      var n :| 0 <= n < |updates| && updates[n] == u;
      SomethingNewMoves(ledger, updates, w, n);
    } else {
      NothingMovesIfAllOld(ledger, updates, w);
    }
  }

  /** The list as a whole leaves a hypothesis as it is: its last recognizable status and its last confidence are
      the ones it has, and no update brings a reference there is room for. */
  ghost predicate Settled(item: Item, updates: seq<Update>, w: Words) {
    && LastStatus(item.id, updates, w) in {None, Some(item.status)}
    && LastConfidence(item.id, updates) in {None, Some(item.confidence)}
    && ClosedUnder(item, item.evidence, updates)
  }

  lemma SameItemIffSettled(item: Item, updates: seq<Update>, w: Words)
    requires RefsOk(item.evidence)
    ensures ItemAfter(item, updates, w) == item <==> Settled(item, updates, w)
  {
    hide ItemAfter, LastStatus, LastConfidence, ClosedUnder, RefsOk;
    LastOnesWin(item, updates, w);
    EvidenceCloses(item, updates, w);
    if ClosedUnder(item, item.evidence, updates) {
      ClosedEvidenceStays(item, updates, w);
    }
  }

  /** The ledger is as it was given exactly when the list settles every hypothesis where it stands. */
  lemma UnchangedIffSettled(ledger: seq<Item>, updates: seq<Update>, w: Words)
    requires LedgerOk(ledger, w)
    ensures ApplyAll(ledger, updates, w) == ledger <==> forall i :: 0 <= i < |ledger| ==> Settled(ledger[i], updates, w)
  {
    hide ApplyAll, ItemAfter, Settled, RefsOk;
    forall i | 0 <= i < |ledger|
      ensures ApplyAll(ledger, updates, w)[i] == ledger[i] <==> Settled(ledger[i], updates, w)
    {
      ApplyAllIsItemwise(ledger, updates, w, i);
      SameItemIffSettled(ledger[i], updates, w);
    }
  }

  /** The flag is wrong, a change reported though the ledger is as it was, exactly for lists that say something
      new about some hypothesis and yet settle every one where it stands. It is never wrong the other way. */
  lemma FlagIsWrongExactly(ledger: seq<Item>, updates: seq<Update>, w: Words)
    requires LedgerOk(ledger, w)
    ensures SomeChange(ledger, updates, w) && ApplyAll(ledger, updates, w) == ledger
            <==> (exists u :: u in updates && !AllOld(ledger, u, w))
                 && forall i :: 0 <= i < |ledger| ==> Settled(ledger[i], updates, w)
    ensures ApplyAll(ledger, updates, w) != ledger ==> SomeChange(ledger, updates, w)
  {
    hide ApplyAll, SomeChange, AllOld, Settled, LedgerOk;
    ReportedIffSomethingNew(ledger, updates, w);
    UnchangedIffSettled(ledger, updates, w);
    if !SomeChange(ledger, updates, w) {
      NoChangeReported(ledger, updates, w);
    }
  }

  /** Two updates that confirm a pending hypothesis and take that back are such a list. */
  lemma ChangesCanCancelOut(ledger: seq<Item>, w: Words, confirm: Update, revert: Update)
    requires LedgerOk(ledger, w) && ledger != [] && ledger[0].status == Pending
    requires confirm == Update("H1", "confirmed", None, []) && w.lower("confirmed") == "confirmed"
    requires revert == Update("H1", "pending", None, []) && w.lower("pending") == "pending"
    ensures SomeChange(ledger, [confirm, revert], w)
    ensures ApplyAll(ledger, [confirm, revert], w) == ledger
  {
    hide SomeChange, ApplyAll, LedgerOk, TrimSpace, ClosedUnder;
    CancellingWords(w);
    assert ledger[0].id == "H1" by {
      FirstID(ledger, w);
    }
    assert !NothingNew(ledger[0], confirm, w) && confirm in [confirm, revert];
    forall i | 0 <= i < |ledger| ensures Settled(ledger[i], [confirm, revert], w) {
      if ledger[i].id == "H1" {
        IDsAreUnique(ledger, w, i, 0);
      }
      CancelsOut(ledger[i], w, confirm, revert);
    }
    FlagIsWrongExactly(ledger, [confirm, revert], w);
  }

  lemma CancellingWords(w: Words)
    requires w.lower("confirmed") == "confirmed" && w.lower("pending") == "pending"
    ensures TrimSpace("H1") == "H1"
    ensures NormalizeStatus("confirmed", w) == Some(Confirmed) && NormalizeStatus("pending", w) == Some(Pending)
  {
    assert Trimmed("H1") && Trimmed("confirmed") && Trimmed("pending");
  }

  lemma FirstID(ledger: seq<Item>, w: Words)
    requires LedgerOk(ledger, w) && ledger != []
    ensures ledger[0].id == "H1"
  {
    assert Decimal(1) == "1";
  }

  lemma LastOfPair(id: string, u: Update, v: Update, w: Words)
    ensures LastStatus(id, [u, v], w)
         == (if TrimSpace(v.id) == id && NormalizeStatus(v.status, w).Some? then NormalizeStatus(v.status, w)
             else if TrimSpace(u.id) == id then NormalizeStatus(u.status, w) else None)
    ensures u.confidence == None && v.confidence == None ==> LastConfidence(id, [u, v]) == None
  {
    hide TrimSpace, NormalizeStatus;
    assert [u, v][..1] == [u] && [u][..0] == [];
    assert LastStatus(id, [u], w) == if TrimSpace(u.id) == id then NormalizeStatus(u.status, w) else None;
    assert LastConfidence(id, [u]) == if TrimSpace(u.id) == id && u.confidence.Some? then Some(Clamp(u.confidence.value)) else None;
  }

  lemma CancelsOut(item: Item, w: Words, confirm: Update, revert: Update)
    requires item.id == "H1" ==> item.status == Pending
    requires confirm == Update("H1", "confirmed", None, []) && w.lower("confirmed") == "confirmed"
    requires revert == Update("H1", "pending", None, []) && w.lower("pending") == "pending"
    ensures Settled(item, [confirm, revert], w)
  {
    hide TrimSpace, NormalizeStatus, LastStatus, LastConfidence;
    CancellingWords(w);
    LastOfPair(item.id, confirm, revert, w);
    forall u | u in [confirm, revert] ensures Closed(item.evidence, u.evidence) {
      assert u.evidence == [];
    }
  }

  // ---- Convergence ---------------------------------------------------------------------------------------------

  predicate Resolved(item: Item) {
    item.status in {Confirmed, RuledOut}
  }

  method ResolvedCount(ledger: seq<Item>) returns (count: nat)
    ensures count == |set i | 0 <= i < |ledger| && Resolved(ledger[i])|
  {
    count := 0;
    ghost var found: set<int> := {};
    for i := 0 to |ledger|
      invariant found == set j | 0 <= j < i && Resolved(ledger[j])
      invariant count == |found|
    {
      if ledger[i].status == Confirmed || ledger[i].status == RuledOut {
        count := count + 1;
        found := found + {i};
      }
    }
  }
}
