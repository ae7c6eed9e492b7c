/**
 * The import preview of scripts/dashboard.js as values: normalising a
 * parsed row (`normalizePreviewItem`), the edits and deletes a draft row
 * takes, the signed running total, and the rows `commitPreview` sends.
 */
module Preview {
  import opened Wrappers
  import opened Seqs
  import opened Text
  import opened Records

  /** A row as the parser returns it; a missing field is `None`. */
  datatype RawItem = RawItem(
    date: Option<string>,
    kind: Option<TxType>,
    category: Option<string>,
    description: Option<string>,
    amount: Option<int>)

  /** `s || ''` for an optional string. */
  function OrEmpty(s: Option<string>): (r: string)
    ensures s.Some? ==> r == s.value
    ensures s.None? ==> r == ""
  {
    s.GetOr("")
  }

  /**
   * `normalizePreviewItem(it)`. `today` is the `YYYY-MM-DD` text of the
   * current instant, which the model takes as a parameter.
   */
  function Normalize(raw: RawItem, today: string): (r: Item)
    ensures r.kind == Income <==> raw.kind == Some(Income)
    ensures r.kind == Income || r.kind == Expense
    ensures OrEmpty(raw.date) != "" ==> r.date == Prefix(OrEmpty(raw.date), 10)
    ensures OrEmpty(raw.date) == "" ==> r.date == today
    ensures r.category == OrEmpty(raw.category) && r.description == OrEmpty(raw.description)
    ensures r.amount == raw.amount.GetOr(0)
  {
    var d := Prefix(OrEmpty(raw.date), 10);
    Item(
      if d != "" then d else today,
      if raw.kind == Some(Income) then Income else Expense,
      OrEmpty(raw.category),
      OrEmpty(raw.description),
      raw.amount.GetOr(0))
  }

  /** A draft row seen again as input, every field present. */
  function AsRaw(x: Item): RawItem
  {
    RawItem(Some(x.date), Some(x.kind), Some(x.category), Some(x.description), Some(x.amount))
  }

  /** Normalising a row that is already normal changes nothing (for a 10-character or shorter `today`). */
  lemma NormalizeIdempotent(raw: RawItem, today: string)
    requires |today| <= 10
    ensures Normalize(AsRaw(Normalize(raw, today)), today) == Normalize(raw, today)
  {
    var n := Normalize(raw, today);
    assert |n.date| <= 10;
    assert Prefix(n.date, 10) == n.date;
  }

  /** What a row adds to the preview total: `Number(b.amount || 0) * (b.type === 'expense' ? 1 : -1)`. */
  function Signed(x: Item): int
  {
    if x.kind == Expense then x.amount else -x.amount
  }

  function ExpenseAmount(x: Item): int
  {
    if x.kind == Expense then x.amount else 0
  }

  function OtherAmount(x: Item): int
  {
    if x.kind == Expense then 0 else x.amount
  }

  /** The running total: expense amounts count up, every other row counts down. */
  function PreviewTotal(items: seq<Item>): (r: int)
    ensures r == Sum(Map(items, ExpenseAmount)) - Sum(Map(items, OtherAmount))
  {
    SignedSplits(items);
    Sum(Map(items, Signed))
  }

  lemma {:induction false} SignedSplits(items: seq<Item>)
    ensures Sum(Map(items, Signed)) == Sum(Map(items, ExpenseAmount)) - Sum(Map(items, OtherAmount))
  {
    if items != [] {
      SignedSplits(items[1..]);
      assert Map(items, Signed)[1..] == Map(items[1..], Signed);
      assert Map(items, ExpenseAmount)[1..] == Map(items[1..], ExpenseAmount);
      assert Map(items, OtherAmount)[1..] == Map(items[1..], OtherAmount);
    }
  }

  /** An expense of 100 and an income of 300 give -200: the total is expense minus income. */
  lemma ExpenseMinusIncomeExample()
    ensures PreviewTotal([Item("2024-01-05", Expense, "", "", 100), Item("2024-01-06", Income, "", "", 300)]) == -200
  {
    var items := [Item("2024-01-05", Expense, "", "", 100), Item("2024-01-06", Income, "", "", 300)];
    var m := Map(items, Signed);
    assert m[0] == Signed(items[0]) == 100;
    assert m[1] == Signed(items[1]) == -300;
    assert m[1..] == [-300];
    assert Sum([-300]) == -300 by {
      assert [-300][1..] == [];
    }
    assert PreviewTotal(items) == Sum(m);
  }

  // ---------------------------------------------------------------- edits

  /** The five editable inputs of a row; an empty amount input is `None`, read as 0. */
  datatype Edit =
    | SetDate(date: string)
    | SetType(kind: TxType)
    | SetCategory(category: string)
    | SetDescription(description: string)
    | SetAmount(amount: Option<int>)

  /** `state.previewItems[i][k] = v`: one field of one row; the amount is coerced with `Number(v || 0)`. */
  function ApplyEdit(x: Item, e: Edit): (r: Item)
    ensures e.SetDate? ==> r == x.(date := e.date)
    ensures e.SetType? ==> r == x.(kind := e.kind)
    ensures e.SetCategory? ==> r == x.(category := e.category)
    ensures e.SetDescription? ==> r == x.(description := e.description)
    ensures e.SetAmount? ==> r == x.(amount := e.amount.GetOr(0))
  {
    match e
    case SetDate(d) => x.(date := d)
    case SetType(t) => x.(kind := t)
    case SetCategory(c) => x.(category := c)
    case SetDescription(s) => x.(description := s)
    case SetAmount(a) => x.(amount := a.GetOr(0))
  }

  /** `items.splice(i, 1)`. */
  function Remove<T>(items: seq<T>, i: nat): (r: seq<T>)
    requires i < |items|
    ensures |r| == |items| - 1
    ensures forall k :: 0 <= k < i ==> r[k] == items[k]
    ensures forall k :: i <= k < |r| ==> r[k] == items[k + 1]
  {
    items[..i] + items[i + 1..]
  }

  /** Deleting a row takes exactly its own contribution off the total. */
  lemma RemoveTotal(items: seq<Item>, i: nat)
    requires i < |items|
    ensures PreviewTotal(Remove(items, i)) == PreviewTotal(items) - Signed(items[i])
  {
    SumMapRemove(items, i, Signed);
  }

  /** Replacing one row moves the total by the difference of the two rows' contributions. */
  lemma ReplaceTotal(items: seq<Item>, i: nat, y: Item)
    requires i < |items|
    ensures PreviewTotal(items[i := y]) == PreviewTotal(items) - Signed(items[i]) + Signed(y)
  {
    var after := items[i := y];
    SumMapRemove(items, i, Signed);
    SumMapRemove(after, i, Signed);
    assert after[..i] + after[i + 1..] == items[..i] + items[i + 1..];
  }

  // ---------------------------------------------------------------- open

  /** `(data.items || []).filter(Boolean)`: the parsed rows that are present, in order. */
  function PresentRows(parsed: seq<Option<RawItem>>): (r: seq<RawItem>)
    ensures |r| <= |parsed|
    ensures r == [] <==> forall k :: 0 <= k < |parsed| ==> parsed[k].None?
  {
    if parsed == [] then []
    else
      var n := |parsed| - 1;
      PresentRows(parsed[..n]) + (if parsed[n].Some? then [parsed[n].value] else [])
  }

  /** Every present row is kept as often as it occurs, and nothing else is. */
  lemma {:induction false} PresentRowsCount(parsed: seq<Option<RawItem>>)
    ensures forall x :: multiset(PresentRows(parsed))[x] == multiset(parsed)[Some(x)]
    ensures forall x :: x in PresentRows(parsed) <==> Some(x) in parsed
  {
    if parsed != [] {
      var n := |parsed| - 1;
      PresentRowsCount(parsed[..n]);
      assert parsed == parsed[..n] + [parsed[n]];
      assert multiset(parsed) == multiset(parsed[..n]) + multiset{parsed[n]};
    }
  }

  /** One parsed row: kept when present, dropped when missing. */
  lemma PresentRowsOne(o: Option<RawItem>)
    ensures PresentRows([o]) == if o.Some? then [o.value] else []
  {
    assert [o][..0] == [];
  }

  /** Filtering keeps the order of the rows: it distributes over concatenation. */
  lemma {:induction false} PresentRowsAppend(a: seq<Option<RawItem>>, b: seq<Option<RawItem>>)
    ensures PresentRows(a + b) == PresentRows(a) + PresentRows(b)
  {
    if b == [] {
      assert a + b == a;
    } else {
      var n := |b| - 1;
      var ab := a + b;
      var last := if b[n].Some? then [b[n].value] else [];
      assert ab[..|ab| - 1] == a + b[..n];
      assert ab[|ab| - 1] == b[n];
      assert PresentRows(ab) == PresentRows(a + b[..n]) + last;
      assert PresentRows(b) == PresentRows(b[..n]) + last;
      PresentRowsAppend(a, b[..n]);
    }
  }

  /** `normalizePreviewItem` as the function `items.map` applies. */
  function NormalizeFor(today: string): RawItem -> Item
  {
    r => Normalize(r, today)
  }

  // ---------------------------------------------------------------- commit

  function Renormalize(today: string): Item -> Item
  {
    x => Normalize(AsRaw(x), today)
  }

  predicate PositiveAmount(x: Item)
  {
    x.amount > 0
  }

  function Positive(): Item -> bool
  {
    x => PositiveAmount(x)
  }

  /**
   * `state.previewItems.map(normalizePreviewItem).filter(it => Number(it.amount) > 0)`:
   * the normalised drafts with a positive amount, in draft order.
   */
  function CommitSelection(drafts: seq<Item>, today: string): (r: seq<Item>)
    ensures IsSubseq(r, Map(drafts, Renormalize(today)))
    ensures forall x :: x in r ==> x.amount > 0 && (x.kind == Income || x.kind == Expense)
    ensures forall x :: multiset(r)[x] == if x.amount > 0 then multiset(Map(drafts, Renormalize(today)))[x] else 0
  {
    var normal := Map(drafts, Renormalize(today));
    SelectIsSubseq(normal, Positive());
    SelectCount(normal, Positive());
    assert forall x :: x in normal ==> x.kind == Income || x.kind == Expense;
    Select(normal, Positive())
  }

  /** "Nothing to import" exactly when no draft has a positive amount; normalising keeps the amount. */
  lemma NothingToImport(drafts: seq<Item>, today: string)
    ensures CommitSelection(drafts, today) == [] <==> forall k :: 0 <= k < |drafts| ==> drafts[k].amount <= 0
  {
    var normal := Map(drafts, Renormalize(today));
    var r := CommitSelection(drafts, today);
    if r == [] {
      forall k | 0 <= k < |drafts| ensures drafts[k].amount <= 0 {
        assert normal[k] == Normalize(AsRaw(drafts[k]), today);
        assert normal[k].amount == drafts[k].amount;
        assert normal[k] in normal;
        assert multiset(r)[normal[k]] == 0;
      }
    } else {
      assert r[0] in r;
    }
  }

  /** A draft that is already normal and has a positive amount is sent unchanged. */
  lemma CommitKeepsNormalRows(drafts: seq<Item>, today: string, k: nat)
    requires |today| <= 10 && k < |drafts|
    requires drafts[k] == Normalize(AsRaw(drafts[k]), today) && drafts[k].amount > 0
    ensures drafts[k] in CommitSelection(drafts, today)
  {
    var normal := Map(drafts, Renormalize(today));
    assert normal[k] == drafts[k];
    assert multiset(normal)[drafts[k]] > 0;
  }
}
