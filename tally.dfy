/**
 * The `itemSummary` dictionaries of the order and statistics reports. Each ordered item
 * contributes one line (its menu item's id and name and its quantity); the summary holds one
 * entry per menu item id, in order of first appearance (the key order of a JavaScript object
 * whose keys are not array indexes), with the name seen first and the sum of the quantities.
 */
module Tally {
  import opened Wrappers
  import Seqs
  import Sorting

  /** One ordered item as the report loop sees it. */
  datatype Line = Line(itemId: nat, name: string, quantity: int)

  /** `{ name, count }` under the key `itemId`. */
  datatype Entry = Entry(itemId: nat, name: string, count: int)

  /** The position of the entry keyed `itemId`. */
  function Find(summary: seq<Entry>, itemId: nat): (r: Option<nat>)
    ensures r.Some? ==> r.value < |summary| && summary[r.value].itemId == itemId
    ensures r.None? <==> forall e | e in summary :: e.itemId != itemId
  {
    Seqs.FindFirst(summary, (e: Entry) => e.itemId == itemId)
  }

  /** One turn of the loop: an absent key starts at count 0, then the quantity is added. */
  function Add(summary: seq<Entry>, l: Line): seq<Entry> {
    match Find(summary, l.itemId)
    case None => summary + [Entry(l.itemId, l.name, 0 + l.quantity)]
    case Some(k) => summary[k := summary[k].(count := summary[k].count + l.quantity)]
  }

  /** The summary after the loop has seen `lines`. */
  function TallyOf(lines: seq<Line>): seq<Entry> {
    if lines == [] then [] else Add(TallyOf(lines[..|lines| - 1]), lines[|lines| - 1])
  }

  /** The sum of the quantities of the lines of one menu item. */
  function Total(lines: seq<Line>, itemId: nat): int {
    if lines == [] then 0
    else Total(lines[..|lines| - 1], itemId) + (if lines[|lines| - 1].itemId == itemId then lines[|lines| - 1].quantity else 0)
  }

  /** The sum of all quantities. */
  function Quantity(lines: seq<Line>): int {
    if lines == [] then 0 else Quantity(lines[..|lines| - 1]) + lines[|lines| - 1].quantity
  }

  /** The sum of all counts of a summary. */
  function Counted(summary: seq<Entry>): int {
    if summary == [] then 0 else Counted(summary[..|summary| - 1]) + summary[|summary| - 1].count
  }

  /** The keys of a summary. */
  function Keys(summary: seq<Entry>): set<nat> {
    set e | e in summary :: e.itemId
  }

  /** The menu item ids of some lines. */
  function ItemIds(lines: seq<Line>): set<nat> {
    set l | l in lines :: l.itemId
  }

  /** No key occurs twice. */
  predicate Keyed(summary: seq<Entry>) {
    forall i, j | 0 <= i < j < |summary| :: summary[i].itemId != summary[j].itemId
  }

  /** The summary is a dictionary: one entry per menu item that occurs in the lines, and no other. */
  lemma {:induction false} TallyKeys(lines: seq<Line>)
    ensures Keyed(TallyOf(lines))
    ensures Keys(TallyOf(lines)) == ItemIds(lines)
  {
    if lines != [] {
      var init, l := lines[..|lines| - 1], lines[|lines| - 1];
      TallyKeys(init);
      AddKeys(TallyOf(init), l);
      assert lines == init + [l];
      assert ItemIds(lines) == ItemIds(init) + {l.itemId};
    }
  }

  /** One turn of the loop keeps the keys distinct and adds the line's key. */
  lemma AddKeys(summary: seq<Entry>, l: Line)
    requires Keyed(summary)
    ensures Keyed(Add(summary, l))
    ensures Keys(Add(summary, l)) == Keys(summary) + {l.itemId}
  {
    var s' := Add(summary, l);
    match Find(summary, l.itemId)
    case None =>
    case Some(k) =>
      forall x ensures x in Keys(s') <==> x in Keys(summary) {
        if x in Keys(summary) {
          var i :| 0 <= i < |summary| && summary[i].itemId == x;
          assert s'[i].itemId == x;
        }
        if x in Keys(s') {
          var i :| 0 <= i < |s'| && s'[i].itemId == x;
          assert summary[i].itemId == x;
        }
      }
  }

  /** Each entry's count is the sum of the quantities of that menu item's lines. */
  lemma {:induction false} TallySums(lines: seq<Line>)
    ensures forall e | e in TallyOf(lines) :: e.count == Total(lines, e.itemId)
  {
    if lines != [] {
      var init, l := lines[..|lines| - 1], lines[|lines| - 1];
      TallySums(init);
      TallyKeys(init);
      var s, s' := TallyOf(init), TallyOf(lines);
      match Find(s, l.itemId)
      case None =>
        forall e | e in s' ensures e.count == Total(lines, e.itemId) {
          if e.itemId == l.itemId {
            assert l.itemId !in ItemIds(init);
            TotalOfAbsent(init, l.itemId);
          } else {
            assert e in s;
          }
        }
      case Some(k) =>
        forall i | 0 <= i < |s'| ensures s'[i].count == Total(lines, s'[i].itemId) {
          assert s[i] in s;
        }
    }
  }

  /** A menu item without lines totals 0. */
  lemma {:induction false} TotalOfAbsent(lines: seq<Line>, itemId: nat)
    requires itemId !in ItemIds(lines)
    ensures Total(lines, itemId) == 0
  {
    if lines != [] {
      assert ItemIds(lines[..|lines| - 1]) <= ItemIds(lines);
      TotalOfAbsent(lines[..|lines| - 1], itemId);
    }
  }

  /** Adding a line adds its quantity to the counts of the summary. */
  lemma {:induction false} AddCounts(summary: seq<Entry>, l: Line)
    ensures Counted(Add(summary, l)) == Counted(summary) + l.quantity
  {
    match Find(summary, l.itemId)
    case None =>
      assert (summary + [Entry(l.itemId, l.name, l.quantity)])[..|summary|] == summary;
    case Some(k) =>
      UpdateCounted(summary, k, summary[k].count + l.quantity);
  }

  lemma {:induction false} UpdateCounted(summary: seq<Entry>, k: nat, c: int)
    requires k < |summary|
    ensures Counted(summary[k := summary[k].(count := c)]) == Counted(summary) - summary[k].count + c
    decreases |summary|
  {
    var s' := summary[k := summary[k].(count := c)];
    if k < |summary| - 1 {
      assert s'[..|s'| - 1] == summary[..|summary| - 1][k := summary[k].(count := c)];
      UpdateCounted(summary[..|summary| - 1], k, c);
    } else {
      assert s'[..|s'| - 1] == summary[..|summary| - 1];
    }
  }

  /** Nothing is lost: the counts add up to the sum of all quantities. */
  lemma {:induction false} TallyConserves(lines: seq<Line>)
    ensures Counted(TallyOf(lines)) == Quantity(lines)
  {
    if lines != [] {
      TallyConserves(lines[..|lines| - 1]);
      AddCounts(TallyOf(lines[..|lines| - 1]), lines[|lines| - 1]);
    }
  }

  /** The loop that fills `itemSummary`. */
  method Summarize(lines: seq<Line>) returns (summary: seq<Entry>)
    ensures summary == TallyOf(lines)
  {
    summary := [];
    for i := 0 to |lines|
      invariant summary == TallyOf(lines[..i])
    {
      summary := Count(summary, lines[i]);
      TallyStep(lines, i);
    }
    assert lines[..|lines|] == lines;
  }

  /** One turn: `if (!summary[id]) summary[id] = { name, count: 0 }; summary[id].count += quantity`. */
  method Count(summary: seq<Entry>, l: Line) returns (r: seq<Entry>)
    ensures r == Add(summary, l)
  {
    var k := Find(summary, l.itemId);
    r := summary;
    if k.None? {
      NewEntryTurn(summary, l);
      r := r + [Entry(l.itemId, l.name, 0)];
      k := Some(|summary|);
    }
    r := r[k.value := r[k.value].(count := r[k.value].count + l.quantity)];
  }

  /** An absent key: the entry appended with count 0 and then incremented is the one `Add` appends. */
  lemma NewEntryTurn(before: seq<Entry>, l: Line)
    requires Find(before, l.itemId).None?
    ensures (before + [Entry(l.itemId, l.name, 0)])[|before| := Entry(l.itemId, l.name, 0 + l.quantity)] == Add(before, l)
  {
  }

  lemma TallyStep(lines: seq<Line>, i: nat)
    requires i < |lines|
    ensures TallyOf(lines[..i + 1]) == Add(TallyOf(lines[..i]), lines[i])
  {
    assert lines[..i + 1][..i] == lines[..i];
  }

  /** `Object.values(itemSummary).sort((a, b) => b.count - a.count)`. */
  function ByCountDesc(summary: seq<Entry>): (r: seq<Entry>)
    ensures forall i, j | 0 <= i < j < |r| :: r[i].count >= r[j].count
    ensures multiset(r) == multiset(summary)
  {
    var r := Sorting.SortBy(summary, (e: Entry) => -e.count);
    assert forall i, j | 0 <= i < j < |r| :: -r[i].count <= -r[j].count;
    r
  }

  /**
   * The ranked summary: sorted by count, non-increasing, with one entry per menu item that
   * has a line, counting the sum of that item's quantities.
   */
  lemma Ranked(lines: seq<Line>)
    ensures var s := ByCountDesc(TallyOf(lines));
      && (forall i, j | 0 <= i < j < |s| :: s[i].count >= s[j].count)
      && (forall e | e in s :: e.count == Total(lines, e.itemId))
      && (set e | e in s :: e.itemId) == ItemIds(lines)
  {
    var t := TallyOf(lines);
    var s := ByCountDesc(t);
    TallySums(lines);
    TallyKeys(lines);
    assert forall e :: e in s <==> e in t by {
      forall e ensures e in s <==> e in t {
        assert e in s <==> e in multiset(s);
      }
    }
    assert (set e | e in s :: e.itemId) == Keys(t);
  }
}
