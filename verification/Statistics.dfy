/**
 Statistics: totals, groups and comparisons over the rows a filter selects
 (internal/storage/sqlite/query.go), with SQLite's overflowing SUM and Go's int64.
 */
module Statistics {
  import opened Wrappers
  import opened Text
  import opened Instants
  import opened Amounts
  import opened Ledger
  import opened AuditLog
  import opened Sorting
  import opened Queries

  /** COUNT(*), the sum of incomes and the sum of expenses. */
  datatype Totals = Totals(count: nat, income: int, expense: int)

  const NOTHING := Totals(0, 0, 0)

  function Plus(a: Totals, b: Totals): Totals {
    Totals(a.count + b.count, a.income + b.income, a.expense + b.expense)
  }

  lemma PlusLaws(a: Totals, b: Totals, c: Totals)
    ensures Plus(Plus(a, b), c) == Plus(a, Plus(b, c))
    ensures Plus(Plus(a, b), c) == Plus(Plus(a, c), b)
    ensures Plus(a, b) == Plus(b, a)
    ensures Plus(a, NOTHING) == a
  {
  }

  function One(row: Transaction): Totals {
    Totals(1, if row.typ == INCOME then row.amount else 0, if row.typ == EXPENSE then row.amount else 0)
  }

  function Tally(s: seq<Transaction>): Totals {
    if s == [] then NOTHING else Plus(Tally(s[..|s| - 1]), One(s[|s| - 1]))
  }

  /** Both sums fit SQLite's integers; otherwise SUM reports an overflow. */
  predicate Fits(t: Totals) {
    t.income <= MAX_INT64 && t.expense <= MAX_INT64
  }

  function Net(t: Totals): int64 {
    Wrap64(t.income - t.expense)
  }

  datatype Group = Group(key: string, totals: Totals, net: int64)

  type KeyOf = Transaction -> string

  function DayOf(row: Transaction): string {
    Take(FormatTime(row.occurredAt), 10)
  }

  function CategoryOf(row: Transaction): string {
    row.category
  }

  function TypeOf(row: Transaction): string {
    row.typ
  }

  function InsertKey(k: string, ks: seq<string>): seq<string> {
    if ks == [] then [k]
    else if k == ks[0] then ks
    else if Precedes(k, ks[0]) then [k] + ks
    else [ks[0]] + InsertKey(k, ks[1..])
  }

  /** The distinct keys in ascending order. */
  function Keys(s: seq<Transaction>, key: KeyOf): seq<string> {
    if s == [] then [] else InsertKey(key(s[|s| - 1]), Keys(s[..|s| - 1], key))
  }

  /** The rows of one group. */
  function Only(s: seq<Transaction>, key: KeyOf, k: string): seq<Transaction> {
    if s == [] then []
    else Only(s[..|s| - 1], key, k) + (if key(s[|s| - 1]) == k then [s[|s| - 1]] else [])
  }

  function GroupFor(s: seq<Transaction>, key: KeyOf, k: string): Group {
    Group(k, Tally(Only(s, key, k)), Net(Tally(Only(s, key, k))))
  }

  /** GROUP BY key ORDER BY key */
  function GroupBy(s: seq<Transaction>, key: KeyOf): seq<Group> {
    Mapped(Keys(s, key), k => GroupFor(s, key, k))
  }

  // ----- groups partition the rows -----

  ghost predicate Ascending(ks: seq<string>) {
    forall i, j :: 0 <= i < j < |ks| ==> Precedes(ks[i], ks[j])
  }

  lemma {:induction false} InsertKeyAscends(k: string, ks: seq<string>)
    requires Ascending(ks)
    ensures Ascending(InsertKey(k, ks))
    ensures forall x :: x in InsertKey(k, ks) <==> x == k || x in ks
    decreases |ks|
  {
    if ks != [] {
      PrecedesTotal(k, ks[0]);
      if k == ks[0] {
      } else if Precedes(k, ks[0]) {
        forall j | 0 < j < |ks|
          ensures Precedes(k, ks[j])
        {
          PrecedesTransitive(k, ks[0], ks[j]);
        }
      } else {
        InsertKeyAscends(k, ks[1..]);
        assert ks == [ks[0]] + ks[1..];
        var rest := InsertKey(k, ks[1..]);
        forall j | 0 <= j < |rest|
          ensures Precedes(ks[0], rest[j])
        {
          assert rest[j] in rest;
        }
      }
    }
  }

  lemma {:induction false} KeysAreTheKeys(s: seq<Transaction>, key: KeyOf)
    ensures Ascending(Keys(s, key))
    ensures forall k :: k in Keys(s, key) <==> Only(s, key, k) != []
    decreases |s|
  {
    if s != [] {
      KeysAreTheKeys(s[..|s| - 1], key);
      InsertKeyAscends(key(s[|s| - 1]), Keys(s[..|s| - 1], key));
    }
  }

  /** The sum of the totals of the groups with the given keys. */
  function KeyedSum(s: seq<Transaction>, key: KeyOf, ks: seq<string>): Totals {
    if ks == [] then NOTHING else Plus(Tally(Only(s, key, ks[0])), KeyedSum(s, key, ks[1..]))
  }

  lemma {:induction false} KeyedSumOfInsert(s: seq<Transaction>, key: KeyOf, k: string, ks: seq<string>)
    requires k !in ks
    ensures KeyedSum(s, key, InsertKey(k, ks)) == Plus(KeyedSum(s, key, ks), Tally(Only(s, key, k)))
    decreases |ks|
  {
    hide Tally, Only, Precedes;
    if ks != [] {
      assert ks[0] in ks;
      if Precedes(k, ks[0]) {
        assert ([k] + ks)[1..] == ks;
      } else {
        KeyedSumOfInsert(s, key, k, ks[1..]);
        assert ([ks[0]] + InsertKey(k, ks[1..]))[1..] == InsertKey(k, ks[1..]);
      }
    } else {
      assert [k][1..] == [];
    }
  }

  lemma TallyAppend(s: seq<Transaction>, row: Transaction)
    ensures Tally(s + [row]) == Plus(Tally(s), One(row))
  {
    assert (s + [row])[..|s|] == s;
  }

  lemma OnlyOfAppend(s: seq<Transaction>, row: Transaction, key: KeyOf, k: string)
    ensures Only(s + [row], key, k) == Only(s, key, k) + (if key(row) == k then [row] else [])
  {
    assert (s + [row])[..|s|] == s;
  }

  lemma OnlyOfNothing(key: KeyOf, k: string)
    ensures Only([], key, k) == []
  {
  }

  lemma {:induction false} AppendElsewhere(s: seq<Transaction>, row: Transaction, key: KeyOf, ks: seq<string>)
    requires key(row) !in ks
    ensures KeyedSum(s + [row], key, ks) == KeyedSum(s, key, ks)
    decreases |ks|
  {
    hide Tally, Plus, Only, One;
    if ks != [] {
      assert ks[0] in ks;
      OnlyOfAppend(s, row, key, ks[0]);
      assert Only(s, key, ks[0]) + [] == Only(s, key, ks[0]);
      AppendElsewhere(s, row, key, ks[1..]);
    }
  }

  lemma {:induction false} AppendToGroup(s: seq<Transaction>, row: Transaction, key: KeyOf, ks: seq<string>)
    requires Ascending(ks) && key(row) in ks
    ensures KeyedSum(s + [row], key, ks) == Plus(KeyedSum(s, key, ks), One(row))
    decreases |ks|
  {
    hide Tally, Plus, Only, One;
    var k := ks[0];
    assert ks == [k] + ks[1..];
    OnlyOfAppend(s, row, key, k);
    if key(row) == k {
      PrecedesTotal(k, k);
      AppendElsewhere(s, row, key, ks[1..]);
      TallyAppend(Only(s, key, k), row);
      PlusLaws(Tally(Only(s, key, k)), One(row), KeyedSum(s, key, ks[1..]));
      PlusLaws(One(row), KeyedSum(s, key, ks[1..]), NOTHING);
    } else {
      AppendToGroup(s, row, key, ks[1..]);
      assert Only(s, key, k) + [] == Only(s, key, k);
    }
    PlusLaws(Tally(Only(s, key, k)), KeyedSum(s, key, ks[1..]), One(row));
  }

  /** A row with a new key opens a group of its own. */
  lemma OpenGroup(s: seq<Transaction>, row: Transaction, key: KeyOf, ks: seq<string>)
    requires key(row) !in ks && Only(s, key, key(row)) == []
    ensures KeyedSum(s + [row], key, InsertKey(key(row), ks)) == Plus(KeyedSum(s, key, ks), One(row))
  {
    hide Plus, One, Tally, Only, KeyedSum, InsertKey;
    var k := key(row);
    AppendElsewhere(s, row, key, ks);
    KeyedSumOfInsert(s + [row], key, k, ks);
    OnlyOfAppend(s, row, key, k);
    assert Only(s + [row], key, k) == [] + [row];
    TallyAppend([], row);
    TallyOfNothing();
    PlusLaws(NOTHING, One(row), NOTHING);
    PlusLaws(One(row), NOTHING, NOTHING);
  }

  lemma KeysOfAppend(front: seq<Transaction>, row: Transaction, key: KeyOf)
    ensures Keys(front + [row], key) == InsertKey(key(row), Keys(front, key))
  {
    assert (front + [row])[..|front|] == front;
  }

  lemma NoKeys(key: KeyOf)
    ensures KeyedSum([], key, Keys([], key)) == Tally([])
  {
  }

  lemma {:induction false} GroupsSumToTotals(s: seq<Transaction>, key: KeyOf)
    ensures KeyedSum(s, key, Keys(s, key)) == Tally(s)
    decreases |s|
  {
    hide *;
    if s == [] {
      NoKeys(key);
    } else {
      var front, row := s[..|s| - 1], s[|s| - 1];
      var ks := Keys(front, key);
      assert s == front + [row];
      GroupsSumToTotals(front, key);
      KeysAreTheKeys(front, key);
      KeysOfAppend(front, row, key);
      TallyAppend(front, row);
      if key(row) in ks {
        AppendToGroup(front, row, key, ks);
        InsertPresent(key(row), ks);
      } else {
        OpenGroup(front, row, key, ks);
      }
    }
  }

  lemma TallyOfNothing()
    ensures Tally([]) == NOTHING
  {
  }

  lemma {:induction false} InsertPresent(k: string, ks: seq<string>)
    requires Ascending(ks) && k in ks
    ensures InsertKey(k, ks) == ks
    decreases |ks|
  {
    if k != ks[0] {
      assert ks == [ks[0]] + ks[1..];
      var j :| 0 <= j < |ks| && ks[j] == k;
      PrecedesTotal(ks[0], ks[j]);
      InsertPresent(k, ks[1..]);
    }
  }

  function SumOfGroups(groups: seq<Group>): Totals {
    if groups == [] then NOTHING else Plus(groups[0].totals, SumOfGroups(groups[1..]))
  }

  lemma {:induction false} SumOfGroupsIsKeyedSum(s: seq<Transaction>, key: KeyOf, ks: seq<string>)
    ensures SumOfGroups(Mapped(ks, k => GroupFor(s, key, k))) == KeyedSum(s, key, ks)
    decreases |ks|
  {
    hide Tally, Only;
    if ks != [] {
      SumOfGroupsIsKeyedSum(s, key, ks[1..]);
      assert Mapped(ks, k => GroupFor(s, key, k))[1..] == Mapped(ks[1..], k => GroupFor(s, key, k));
    }
  }

  lemma {:induction false} TallyCounts(s: seq<Transaction>)
    ensures Tally(s).count == |s|
    ensures (forall i :: 0 <= i < |s| ==> s[i].amount > 0) ==> 0 <= Tally(s).income && 0 <= Tally(s).expense
    decreases |s|
  {
    if s != [] {
      TallyCounts(s[..|s| - 1]);
    }
  }

  /** Groups have strictly ascending keys, none is empty, each is the tally of its rows, and they sum to the whole. */
  lemma GroupsPartitionTheRows(s: seq<Transaction>, key: KeyOf)
    ensures var groups := GroupBy(s, key);
            && (forall i, j :: 0 <= i < j < |groups| ==> Precedes(groups[i].key, groups[j].key))
            && (forall i :: 0 <= i < |groups| ==> groups[i].totals.count > 0)
            && (forall i :: 0 <= i < |groups| ==> groups[i].totals == Tally(Only(s, key, groups[i].key)))
            && (forall row :: row in s ==> exists i :: 0 <= i < |groups| && groups[i].key == key(row))
            && SumOfGroups(groups) == Tally(s)
  {
    hide Tally, Only, Keys, KeyedSum, SumOfGroups, Precedes;
    var ks, groups := Keys(s, key), GroupBy(s, key);
    KeysAreTheKeys(s, key);
    GroupsSumToTotals(s, key);
    SumOfGroupsIsKeyedSum(s, key, ks);
    forall i | 0 <= i < |groups|
      ensures groups[i].totals.count > 0
    {
      assert ks[i] in ks;
      TallyCounts(Only(s, key, ks[i]));
    }
    forall row | row in s
      ensures exists i :: 0 <= i < |groups| && groups[i].key == key(row)
    {
      OnlyHas(s, key, row);
      var i :| 0 <= i < |ks| && ks[i] == key(row);
      assert groups[i].key == key(row);
    }
  }

  lemma {:induction false} OnlyHas(s: seq<Transaction>, key: KeyOf, row: Transaction)
    requires row in s
    ensures Only(s, key, key(row)) != []
    decreases |s|
  {
    if row != s[|s| - 1] {
      assert s == s[..|s| - 1] + [s[|s| - 1]];
      OnlyHas(s[..|s| - 1], key, row);
    }
  }

  /** A category or type group is what the ungrouped query returns when filtered to its key. */
  lemma {:induction false} CategoryGroupIsFiltered(rows: Rows, n: nat, f: Filter, k: string)
    requires k != "" && (f.category == "" || f.category == k)
    ensures Select(rows, n, f.(category := k)) == Only(Select(rows, n, f), CategoryOf, k)
    decreases n
  {
    hide Matches, Only;
    if n == 0 {
      OnlyOfNothing(CategoryOf, k);
    } else {
      CategoryGroupIsFiltered(rows, n - 1, f, k);
      var s := Select(rows, n - 1, f);
      if n in rows {
        CategoryNarrows(f, rows[n], k);
        OnlyOfAppend(s, rows[n], CategoryOf, k);
      }
      assert s + [] == s && Only(s, CategoryOf, k) + [] == Only(s, CategoryOf, k);
    }
  }

  lemma CategoryNarrows(f: Filter, row: Transaction, k: string)
    requires k != "" && (f.category == "" || f.category == k)
    ensures Matches(f.(category := k), row) <==> Matches(f, row) && row.category == k
  {
    hide TextInRange, ContainsText;
  }

  lemma {:induction false} TypeGroupIsFiltered(rows: Rows, n: nat, f: Filter, k: string)
    requires k != "" && (f.typ == "" || f.typ == k)
    ensures Select(rows, n, f.(typ := k)) == Only(Select(rows, n, f), TypeOf, k)
    decreases n
  {
    hide Matches, Only;
    if n == 0 {
      OnlyOfNothing(TypeOf, k);
    } else {
      TypeGroupIsFiltered(rows, n - 1, f, k);
      var s := Select(rows, n - 1, f);
      if n in rows {
        TypeNarrows(f, rows[n], k);
        OnlyOfAppend(s, rows[n], TypeOf, k);
      }
      assert s + [] == s && Only(s, TypeOf, k) + [] == Only(s, TypeOf, k);
    }
  }

  lemma TypeNarrows(f: Filter, row: Transaction, k: string)
    requires k != "" && (f.typ == "" || f.typ == k)
    ensures Matches(f.(typ := k), row) <==> Matches(f, row) && row.typ == k
  {
    hide TextInRange, ContainsText;
  }

  // ----- additivity and order independence -----

  lemma {:induction false} TallyConcat(a: seq<Transaction>, b: seq<Transaction>)
    ensures Tally(a + b) == Plus(Tally(a), Tally(b))
    decreases |b|
  {
    hide One, Plus;
    if b == [] {
      assert a + b == a;
      PlusLaws(Tally(a), NOTHING, NOTHING);
    } else {
      var front, row := b[..|b| - 1], b[|b| - 1];
      TallyConcat(a, front);
      assert a + b == (a + front) + [row] && b == front + [row];
      hide Tally;
      TallyAppend(a + front, row);
      TallyAppend(front, row);
      PlusLaws(Tally(a), Tally(front), One(row));
    }
  }

  lemma {:induction false} TallyOfSort(s: seq<Transaction>, less: (Transaction, Transaction) -> bool)
    ensures Tally(Sort(s, less)) == Tally(s)
    decreases |s|
  {
    hide Tally, Plus;
    if s != [] {
      TallyOfSort(s[1..], less);
      TallyOfInsert(s[0], Sort(s[1..], less), less);
      assert s == [s[0]] + s[1..];
      TallyConcat([s[0]], s[1..]);
    }
  }

  lemma {:induction false} TallyOfInsert(x: Transaction, s: seq<Transaction>, less: (Transaction, Transaction) -> bool)
    ensures Tally(Insert(x, s, less)) == Plus(Tally([x]), Tally(s))
    decreases |s|
  {
    hide Tally, Plus;
    if s == [] || less(x, s[0]) {
      TallyConcat([x], s);
    } else {
      var y, rest := s[0], s[1..];
      TallyOfInsert(x, rest, less);
      TallyConcat([y], Insert(x, rest, less));
      TallyConcat([y], rest);
      assert s == [y] + rest;
      PlusLaws(Tally([x]), Tally([y]), Tally(rest));
      PlusLaws(Tally([y]), Tally([x]), Tally(rest));
    }
  }

  /** Whole-second instants are ordered as their texts. */
  lemma WholeSecondsInTextOrder(a: Instant, b: Instant)
    requires a.nano == 0 && b.nano == 0 && FourDigitYear(a) && FourDigitYear(b) && Before(a, b)
    ensures Precedes(FormatTime(a), FormatTime(b))
  {
    TextOrderIsTimeOrder(a, b);
  }

  /** A text between x and z lies in exactly one of the halves that y makes. */
  lemma HalvesJoin(w: string, x: string, y: string, z: string)
    requires Precedes(x, y) && Precedes(y, z)
    ensures !Precedes(w, x) && Precedes(w, z) <==>
            (!Precedes(w, x) && Precedes(w, y)) || (!Precedes(w, y) && Precedes(w, z))
  {
    hide Precedes;
    PrecedesTotal(w, x);
    PrecedesTotal(w, y);
    if Precedes(w, y) {
      PrecedesTransitive(w, y, z);
    } else if Precedes(w, x) {
      PrecedesTransitive(w, x, y);
    }
  }

  /** Three whole-second instants in order, none of them absent. */
  predicate Bounds(a: Instant, b: Instant, c: Instant) {
    && FourDigitYear(a) && FourDigitYear(b) && FourDigitYear(c)
    && a.nano == 0 && b.nano == 0 && c.nano == 0 && Before(a, b) && Before(b, c)
    && a != ZERO && b != ZERO && c != ZERO
  }

  lemma MatchesJoin(f: Filter, row: Transaction, a: Instant, b: Instant, c: Instant)
    requires Bounds(a, b, c)
    ensures var ab, bc, ac := f.(start := a, end := b), f.(start := b, end := c), f.(start := a, end := c);
            && (Matches(ac, row) <==> Matches(ab, row) || Matches(bc, row))
            && !(Matches(ab, row) && Matches(bc, row))
  {
    hide FormatTime, Precedes, MatchesSubject, MatchesAmount, Before;
    WholeSecondsInTextOrder(a, b);
    WholeSecondsInTextOrder(b, c);
    HalvesJoin(FormatTime(row.occurredAt), FormatTime(a), FormatTime(b), FormatTime(c));
    SameSubject(f, row);
  }

  lemma SameSubject(f: Filter, row: Transaction)
    ensures forall x, y :: MatchesSubject(f.(start := x, end := y), row) == MatchesSubject(f, row)
    ensures forall x, y :: MatchesAmount(f.(start := x, end := y), row) == MatchesAmount(f, row)
  {
  }

  /** A filter whose matches are split between two others. */
  ghost predicate SplitBy(z: Filter, x: Filter, y: Filter) {
    forall row :: (Matches(z, row) <==> Matches(x, row) || Matches(y, row)) && !(Matches(x, row) && Matches(y, row))
  }

  /** What one more row adds to the totals of a group. */
  lemma GroupStep(rows: Rows, n: nat, f: Filter, key: KeyOf, k: string)
    requires n > 0
    ensures Tally(Only(Select(rows, n, f), key, k)) ==
            if n in rows && Matches(f, rows[n]) && key(rows[n]) == k
            then Plus(Tally(Only(Select(rows, n - 1, f), key, k)), One(rows[n]))
            else Tally(Only(Select(rows, n - 1, f), key, k))
  {
    hide Matches, Tally, Only, Plus, One;
    var s := Select(rows, n - 1, f);
    if n in rows && Matches(f, rows[n]) {
      assert Select(rows, n, f) == s + [rows[n]];
      OnlyOfAppend(s, rows[n], key, k);
      TallyAppend(Only(s, key, k), rows[n]);
      assert Only(s, key, k) + [] == Only(s, key, k);
    } else {
      assert Select(rows, n, f) == s;
    }
  }

  lemma {:induction false} SplitGroups(rows: Rows, n: nat, z: Filter, x: Filter, y: Filter, key: KeyOf, k: string)
    requires SplitBy(z, x, y)
    ensures Tally(Only(Select(rows, n, z), key, k)) ==
            Plus(Tally(Only(Select(rows, n, x), key, k)), Tally(Only(Select(rows, n, y), key, k)))
    decreases n
  {
    hide Matches, One, Tally, Only, Select, Plus;
    if n == 0 {
      NoGroup(rows, z, key, k);
      NoGroup(rows, x, key, k);
      NoGroup(rows, y, key, k);
      PlusLaws(NOTHING, NOTHING, NOTHING);
    } else {
      SplitGroups(rows, n - 1, z, x, y, key, k);
      var a, b := Tally(Only(Select(rows, n - 1, x), key, k)), Tally(Only(Select(rows, n - 1, y), key, k));
      var inX, inY := n in rows && Matches(x, rows[n]), n in rows && Matches(y, rows[n]);
      assert n in rows ==> (Matches(z, rows[n]) <==> inX || inY) && !(inX && inY);
      hide SplitBy;
      GroupStep(rows, n, x, key, k);
      GroupStep(rows, n, y, key, k);
      GroupStep(rows, n, z, key, k);
      if inX || inY {
        PlusLaws(a, b, One(rows[n]));
      }
    }
  }

  lemma NoGroup(rows: Rows, f: Filter, key: KeyOf, k: string)
    ensures Tally(Only(Select(rows, 0, f), key, k)) == NOTHING
  {
  }

  lemma SelectNone(rows: Rows, f: Filter)
    ensures Select(rows, 0, f) == []
  {
  }

  lemma SelectStep(rows: Rows, n: nat, f: Filter)
    requires n > 0
    ensures Tally(Select(rows, n, f)) ==
            if n in rows && Matches(f, rows[n]) then Plus(Tally(Select(rows, n - 1, f)), One(rows[n]))
            else Tally(Select(rows, n - 1, f))
  {
    hide Matches;
    if n in rows && Matches(f, rows[n]) {
      TallyAppend(Select(rows, n - 1, f), rows[n]);
    } else {
      assert Select(rows, n, f) == Select(rows, n - 1, f);
    }
  }

  lemma RangesSplit(f: Filter, a: Instant, b: Instant, c: Instant)
    requires Bounds(a, b, c)
    ensures SplitBy(f.(start := a, end := c), f.(start := a, end := b), f.(start := b, end := c))
  {
    hide Matches, Bounds;
    var ab, bc, ac := f.(start := a, end := b), f.(start := b, end := c), f.(start := a, end := c);
    forall row
      ensures (Matches(ac, row) <==> Matches(ab, row) || Matches(bc, row)) && !(Matches(ab, row) && Matches(bc, row))
    {
      MatchesJoin(f, row, a, b, c);
    }
  }

  /**
   For any grouping, a key's group over [a,c) is the sum of its groups over [a,b) and [b,c), and exists when one
   does.
   */
  lemma GroupsAreAdditive(rows: Rows, n: nat, f: Filter, a: Instant, b: Instant, c: Instant, key: KeyOf, k: string)
    requires Bounds(a, b, c)
    ensures var ab, bc, ac :=
              Select(rows, n, f.(start := a, end := b)), Select(rows, n, f.(start := b, end := c)),
              Select(rows, n, f.(start := a, end := c));
            && Tally(Only(ac, key, k)) == Plus(Tally(Only(ab, key, k)), Tally(Only(bc, key, k)))
            && (k in Keys(ac, key) <==> k in Keys(ab, key) || k in Keys(bc, key))
  {
    hide Bounds, SplitBy, Select, Tally, Only, Keys;
    RangesSplit(f, a, b, c);
    var ab, bc, ac := f.(start := a, end := b), f.(start := b, end := c), f.(start := a, end := c);
    SplitGroups(rows, n, ac, ab, bc, key, k);
    KeyIsCounted(Select(rows, n, ab), key, k);
    KeyIsCounted(Select(rows, n, bc), key, k);
    KeyIsCounted(Select(rows, n, ac), key, k);
  }

  lemma KeyIsCounted(s: seq<Transaction>, key: KeyOf, k: string)
    ensures k in Keys(s, key) <==> Tally(Only(s, key, k)).count > 0
  {
    hide Tally, Only, Keys;
    KeysAreTheKeys(s, key);
    TallyCounts(Only(s, key, k));
  }

  lemma {:induction false} OneGroupOfAll(s: seq<Transaction>)
    ensures Only(s, _ => "", "") == s
    decreases |s|
  {
    if s != [] {
      OneGroupOfAll(s[..|s| - 1]);
    }
  }

  /** Totals add up over adjacent whole-second ranges. */
  lemma StatisticsAreAdditive(rows: Rows, n: nat, f: Filter, a: Instant, b: Instant, c: Instant)
    requires Bounds(a, b, c)
    ensures Tally(Select(rows, n, f.(start := a, end := c))) ==
            Plus(Tally(Select(rows, n, f.(start := a, end := b))), Tally(Select(rows, n, f.(start := b, end := c))))
  {
    hide Bounds, Select, Tally, Only, Keys;
    GroupsAreAdditive(rows, n, f, a, b, c, _ => "", "");
    OneGroupOfAll(Select(rows, n, f.(start := a, end := b)));
    OneGroupOfAll(Select(rows, n, f.(start := b, end := c)));
    OneGroupOfAll(Select(rows, n, f.(start := a, end := c)));
  }

  // ----- the whole report -----

  datatype StatisticsFilter = StatisticsFilter(
    scope: Scope, start: Instant, end: Instant, typ: string, category: string, group: string,
    compareStart: Instant, compareEnd: Instant)

  datatype Comparison = Comparison(
    start: Instant, end: Instant, totals: Totals, net: int64, netDelta: int64, netPercentage: real)

  datatype Report = Report(
    group: string, totals: Totals, net: int64, groups: seq<Group>, comparison: Option<Comparison>)

  function RowFilter(sf: StatisticsFilter, start: Instant, end: Instant): Filter {
    Filter(sf.scope, start, end, sf.typ, sf.category, "", 0, 0, false)
  }

  function GroupName(sf: StatisticsFilter): string {
    if sf.group == "" then "total" else sf.group
  }

  predicate ValidRange(start: Instant, end: Instant) {
    start != ZERO && end != ZERO && Before(start, end)
  }

  predicate Compares(sf: StatisticsFilter) {
    sf.compareStart != ZERO || sf.compareEnd != ZERO
  }

  function ValidateStatistics(sf: StatisticsFilter): Option<Error> {
    if !ValidScope(sf.scope) then Some(InvalidRequest)
    else if !ValidRange(sf.start, sf.end) then Some(BadFilter)
    else if GroupName(sf) !in {"total", "day", "category", "type"} then Some(BadFilter)
    else ValidateFilter(RowFilter(sf, sf.start, sf.end))
  }

  /** statisticsQuery: totals, and groups unless the grouping is "total". */
  function GroupsOf(s: seq<Transaction>, group: string): seq<Group> {
    if group == "day" then GroupBy(s, DayOf)
    else if group == "category" then GroupBy(s, CategoryOf)
    else if group == "type" then GroupBy(s, TypeOf)
    else []
  }

  function Compare(net: int64, start: Instant, end: Instant, totals: Totals): Comparison {
    var delta := Wrap64(net - Net(totals));
    Comparison(start, end, totals, Net(totals), delta,
               if Net(totals) != 0 then (delta as real) / (Net(totals) as real) * 100.0 else 0.0)
  }

  function Summarize(rows: Rows, n: nat, sf: StatisticsFilter): Result<Report, Error> {
    if ValidateStatistics(sf).Some? then Err(ValidateStatistics(sf).value) else
      var s := Select(rows, n, RowFilter(sf, sf.start, sf.end));
      if !Fits(Tally(s)) then Err(SumOverflow) else
        var report := Report(GroupName(sf), Tally(s), Net(Tally(s)), GroupsOf(s, GroupName(sf)), None);
        if !Compares(sf) then Ok(report)
        else if !ValidRange(sf.compareStart, sf.compareEnd) then Err(BadFilter)
        else
          var other := Tally(Select(rows, n, RowFilter(sf, sf.compareStart, sf.compareEnd)));
          if !Fits(other) then Err(SumOverflow)
          else Ok(report.(comparison := Some(Compare(report.net, sf.compareStart, sf.compareEnd, other))))
  }

  predicate PositiveAmounts(rows: Rows) {
    forall id :: id in rows ==> rows[id].amount > 0
  }

  lemma {:induction false} SelectionIsPositive(rows: Rows, n: nat, f: Filter)
    requires PositiveAmounts(rows)
    ensures forall i :: 0 <= i < |Select(rows, n, f)| ==> Select(rows, n, f)[i].amount > 0
    decreases n
  {
    hide Matches;
    if n > 0 {
      SelectionIsPositive(rows, n - 1, f);
    }
  }

  ghost predicate PartOf(a: Totals, b: Totals) {
    0 <= a.income <= b.income && 0 <= a.expense <= b.expense
  }

  lemma PartGrows(s: seq<Transaction>, row: Transaction, key: KeyOf, k: string)
    requires row.amount > 0 && PartOf(Tally(Only(s, key, k)), Tally(s))
    ensures PartOf(Tally(Only(s + [row], key, k)), Tally(s + [row]))
  {
    hide Tally, Only;
    OnlyOfAppend(s, row, key, k);
    TallyAppend(s, row);
    TallyAppend(Only(s, key, k), row);
    assert Only(s, key, k) + [] == Only(s, key, k);
  }

  lemma {:induction false} GroupsAreParts(s: seq<Transaction>, key: KeyOf, k: string)
    requires forall i :: 0 <= i < |s| ==> s[i].amount > 0
    ensures PartOf(Tally(Only(s, key, k)), Tally(s))
    decreases |s|
  {
    hide Tally, Only;
    if s == [] {
      NoParts(key, k);
    } else {
      var front := s[..|s| - 1];
      GroupsAreParts(front, key, k);
      PartGrows(front, s[|s| - 1], key, k);
      assert s == front + [s[|s| - 1]];
    }
  }

  lemma NoParts(key: KeyOf, k: string)
    ensures PartOf(Tally(Only([], key, k)), Tally([]))
  {
  }

  /** When the totals fit, so do every group's sums, and no group's net wraps. */
  lemma GroupNetsDoNotOverflow(s: seq<Transaction>, key: KeyOf)
    requires (forall i :: 0 <= i < |s| ==> s[i].amount > 0) && Fits(Tally(s))
    ensures forall i :: 0 <= i < |GroupBy(s, key)| ==>
              var g := GroupBy(s, key)[i]; Fits(g.totals) && g.net == g.totals.income - g.totals.expense
  {
    hide Tally, Only, Keys;
    forall i | 0 <= i < |GroupBy(s, key)|
      ensures var g := GroupBy(s, key)[i]; Fits(g.totals) && g.net == g.totals.income - g.totals.expense
    {
      GroupsAreParts(s, key, Keys(s, key)[i]);
    }
  }

  const TWO_TO_62 := 0x4000_0000_0000_0000

  /** The exact difference of two nets. */
  function ExactDelta(s: Totals, o: Totals): int {
    (s.income - s.expense) - (o.income - o.expense)
  }

  /**
   Neither net can wrap; the reported delta is exact if and only if the difference of the selected rows' sums
   fits 64 bits, as it does whenever all four sums are below 2^62.
   */
  lemma NetsDoNotOverflow(rows: Rows, n: nat, sf: StatisticsFilter)
    requires PositiveAmounts(rows) && Summarize(rows, n, sf).Ok?
    ensures var r, s := Summarize(rows, n, sf).value, Tally(Select(rows, n, RowFilter(sf, sf.start, sf.end)));
            && r.totals == s && r.net == s.income - s.expense
            && (r.comparison.Some? <==> Compares(sf))
            && (Compares(sf) ==>
                  var c, o := r.comparison.value, Tally(Select(rows, n, RowFilter(sf, sf.compareStart, sf.compareEnd)));
                  && c.totals == o && c.net == o.income - o.expense
                  && c.netDelta == Wrap64(ExactDelta(s, o))
                  && (c.netDelta == ExactDelta(s, o) <==> -MAX_INT64 - 1 <= ExactDelta(s, o) <= MAX_INT64)
                  && (s.income < TWO_TO_62 && s.expense < TWO_TO_62 && o.income < TWO_TO_62 && o.expense < TWO_TO_62 ==>
                        c.netDelta == ExactDelta(s, o)))
  {
    hide Select, Tally, GroupsOf, ValidateStatistics;
    var f, g := RowFilter(sf, sf.start, sf.end), RowFilter(sf, sf.compareStart, sf.compareEnd);
    SelectionIsPositive(rows, n, f);
    SelectionIsPositive(rows, n, g);
    TallyCounts(Select(rows, n, f));
    TallyCounts(Select(rows, n, g));
  }
}
