/** The transaction list of `renderList`: the records of the selected month,
    newest first, records of the same date in their stored order. */
module MonthView {
  import opened Records
  import opened Seqs
  import opened Repository

  /** The test `t => getMonthKey(t.date) === monthKey`. */
  function IsInMonth(m: MonthKey): Transaction -> bool {
    (t: Transaction) => MonthOf(t.date) == m
  }

  /** `filter(t => getMonthKey(t.date) === monthKey)`. */
  function InMonth(s: seq<Transaction>, m: MonthKey): seq<Transaction> {
    Keep(s, IsInMonth(m))
  }

  function IsOnDate(d: Date): Transaction -> bool {
    (t: Transaction) => t.date == d
  }

  /** The records dated `d`, in their order in `s`. */
  function OnDate(s: seq<Transaction>, d: Date): seq<Transaction> {
    Keep(s, IsOnDate(d))
  }

  /** No record is later than a record before it. */
  predicate NewestFirst(s: seq<Transaction>) {
    forall i, j :: 0 <= i < j < |s| ==> !Later(s[j].date, s[i].date)
  }

  /** Places `x` into the newest-first list `s`, after every record that is
      not older than `x`. */
  function Insert(s: seq<Transaction>, x: Transaction): (r: seq<Transaction>)
    ensures multiset(r) == multiset(s) + multiset{x}
  {
    if s == [] || !Later(x.date, s[|s| - 1].date) then s + [x]
    else
      var init := s[..|s| - 1];
      assert s == init + [s[|s| - 1]];
      Insert(init, x) + [s[|s| - 1]]
  }

  /** The stable sort by `(a, b) => new Date(b.date) - new Date(a.date)`:
      each record in turn is inserted after all earlier records that are not
      older than it. */
  function SortNewestFirst(s: seq<Transaction>): (r: seq<Transaction>)
    ensures multiset(r) == multiset(s)
  {
    if s == [] then []
    else
      var init := s[..|s| - 1];
      assert s == init + [s[|s| - 1]];
      Insert(SortNewestFirst(init), s[|s| - 1])
  }

  /** The month list shown for month `m`. */
  function MonthList(s: seq<Transaction>, m: MonthKey): seq<Transaction> {
    SortNewestFirst(InMonth(s, m))
  }

  /** Inserting into a newest-first list keeps it newest first. */
  lemma {:induction false} InsertNewestFirst(s: seq<Transaction>, x: Transaction)
    requires NewestFirst(s)
    ensures NewestFirst(Insert(s, x))
    decreases |s|
  {
    if s == [] {
      AppendOldest(s, x);
    } else {
      var init, last := s[..|s| - 1], s[|s| - 1];
      if !Later(x.date, last.date) {
        forall i | 0 <= i < |s| ensures !Later(x.date, s[i].date) {
          LaterTotal(x.date, last.date);
          LaterTotal(last.date, s[i].date);
        }
        AppendOldest(s, x);
      } else {
        InsertNewestFirst(init, x);
        var front := Insert(init, x);
        forall i | 0 <= i < |front| ensures !Later(last.date, front[i].date) {
          assert front[i] in multiset(front);
          if front[i] != x {
            assert front[i] in multiset(init);
            var k :| 0 <= k < |init| && init[k] == front[i];
            assert s[k] == init[k];
          }
        }
        AppendOldest(front, last);
      }
    }
  }

  /** A record no later than any record of a newest-first list can go at its end. */
  lemma {:induction false} AppendOldest(s: seq<Transaction>, x: Transaction)
    requires NewestFirst(s)
    requires forall i :: 0 <= i < |s| ==> !Later(x.date, s[i].date)
    ensures NewestFirst(s + [x])
  {
  }

  lemma {:induction false} OnDateAppend(a: seq<Transaction>, b: seq<Transaction>, d: Date)
    ensures OnDate(a + b, d) == OnDate(a, d) + OnDate(b, d)
  {
    KeepAppend(a, b, IsOnDate(d));
  }

  lemma {:induction false} OnDateSingle(x: Transaction, d: Date)
    ensures OnDate([x], d) == if x.date == d then [x] else []
  {
    KeepCons(x, [], IsOnDate(d));
    assert [x] + [] == [x];
  }

  lemma {:induction false} OnDateContents(s: seq<Transaction>, d: Date)
    ensures forall t :: t in OnDate(s, d) <==> t in s && t.date == d
  {
    KeepContents(s, IsOnDate(d));
  }

  /** Inserting `x` puts it after all the records of its own date. */
  lemma {:induction false} InsertOnDate(s: seq<Transaction>, x: Transaction, d: Date)
    ensures OnDate(Insert(s, x), d) == OnDate(s, d) + OnDate([x], d)
    decreases |s|
  {
    if s == [] || !Later(x.date, s[|s| - 1].date) {
      assert Insert(s, x) == s + [x];
      OnDateAppend(s, [x], d);
    } else {
      var init, last := s[..|s| - 1], s[|s| - 1];
      assert Insert(s, x) == Insert(init, x) + [last];
      assert s == init + [last];
      InsertOnDate(init, x, d);
      OnDateAppend(Insert(init, x), [last], d);
      OnDateAppend(init, [last], d);
      OnDateSingle(x, d);
      OnDateSingle(last, d);
      assert x.date != last.date;
      SwapAroundEmpty(OnDate(init, d), OnDate([x], d), OnDate([last], d));
    }
  }

  /** Two sequences of which one is empty can be appended in either order. */
  lemma SwapAroundEmpty(p: seq<Transaction>, q: seq<Transaction>, r: seq<Transaction>)
    requires q == [] || r == []
    ensures p + q + r == p + r + q
  {
  }

  /** The sort orders the records newest first. */
  lemma {:induction false} SortIsNewestFirst(s: seq<Transaction>)
    ensures NewestFirst(SortNewestFirst(s))
    decreases |s|
  {
    if s != [] {
      SortIsNewestFirst(s[..|s| - 1]);
      InsertNewestFirst(SortNewestFirst(s[..|s| - 1]), s[|s| - 1]);
    }
  }

  /** The sort is stable: the records of any one date keep their order. */
  lemma {:induction false} SortIsStable(s: seq<Transaction>, d: Date)
    ensures OnDate(SortNewestFirst(s), d) == OnDate(s, d)
    decreases |s|
  {
    if s != [] {
      var init, last := s[..|s| - 1], s[|s| - 1];
      assert s == init + [last];
      assert SortNewestFirst(s) == Insert(SortNewestFirst(init), last);
      SortIsStable(init, d);
      InsertOnDate(SortNewestFirst(init), last, d);
      OnDateAppend(init, [last], d);
    }
  }

  /** The month list holds exactly the records of month `m`, each as often as
      it is stored, newest first, records of one date in their stored order. */
  lemma {:induction false} MonthListSpec(s: seq<Transaction>, m: MonthKey)
    ensures forall t :: t in MonthList(s, m) <==> t in s && MonthOf(t.date) == m
    ensures multiset(MonthList(s, m)) == multiset(InMonth(s, m))
    ensures NewestFirst(MonthList(s, m))
    ensures forall d :: OnDate(MonthList(s, m), d) == OnDate(InMonth(s, m), d)
  {
    KeepContents(s, IsInMonth(m));
    SortIsNewestFirst(InMonth(s, m));
    forall d ensures OnDate(MonthList(s, m), d) == OnDate(InMonth(s, m), d) {
      SortIsStable(InMonth(s, m), d);
    }
  }

  /** Being newest first with every date's records in a given order
      determines a list: the month list is the only list with the
      properties of `MonthListSpec`. */
  lemma {:induction false} NewestFirstUnique(a: seq<Transaction>, b: seq<Transaction>)
    requires NewestFirst(a) && NewestFirst(b)
    requires forall d :: OnDate(a, d) == OnDate(b, d)
    ensures a == b
    decreases |a|
  {
    SameDatesBothEmpty(a, b);
    if a != [] {
      var ai, al := a[..|a| - 1], a[|a| - 1];
      var bi, bl := b[..|b| - 1], b[|b| - 1];
      assert a == ai + [al] && b == bi + [bl];
      SameDatesSameLast(a, b);
      forall d ensures OnDate(ai, d) == OnDate(bi, d) {
        OnDateAppend(ai, [al], d);
        OnDateAppend(bi, [bl], d);
        var x, y := OnDate(ai, d), OnDate(bi, d);
        var tail := OnDate([al], d);
        assert x + tail == y + tail;
        assert x == (x + tail)[..|x|] && y == (y + tail)[..|y|];
      }
      NewestFirstUnique(ai, bi);
    }
  }

  lemma {:induction false} SameDatesBothEmpty(a: seq<Transaction>, b: seq<Transaction>)
    requires forall d :: OnDate(a, d) == OnDate(b, d)
    ensures a == [] <==> b == []
  {
    if a != [] {
      OnDateContents(a, a[0].date);
      OnDateContents(b, a[0].date);
      assert a[0] in OnDate(b, a[0].date);
    }
    if b != [] {
      OnDateContents(a, b[0].date);
      OnDateContents(b, b[0].date);
      assert b[0] in OnDate(a, b[0].date);
    }
  }

  /** Lists with the same records per date hold the same records. */
  lemma {:induction false} SameDatesSameMembers(a: seq<Transaction>, b: seq<Transaction>, t: Transaction)
    requires forall d :: OnDate(a, d) == OnDate(b, d)
    requires t in a
    ensures t in b
  {
    OnDateContents(a, t.date);
    OnDateContents(b, t.date);
  }

  /** Two newest-first lists with the same records per date end on the same record. */
  lemma {:induction false} SameDatesSameLast(a: seq<Transaction>, b: seq<Transaction>)
    requires NewestFirst(a) && NewestFirst(b) && a != [] && b != []
    requires forall d :: OnDate(a, d) == OnDate(b, d)
    ensures a[|a| - 1] == b[|b| - 1]
  {
    var ai, al := a[..|a| - 1], a[|a| - 1];
    var bi, bl := b[..|b| - 1], b[|b| - 1];
    // Each list ends on its oldest date, so the two oldest dates agree.
    assert al.date == bl.date by {
      SameDatesSameMembers(a, b, al);
      SameDatesSameMembers(b, a, bl);
      var ka :| 0 <= ka < |b| && b[ka] == al;
      var kb :| 0 <= kb < |a| && a[kb] == bl;
      LaterTotal(al.date, bl.date);
    }
    // The last record of that date is then the last record of each list.
    var D := al.date;
    assert a == ai + [al] && b == bi + [bl];
    OnDateAppend(ai, [al], D);
    OnDateAppend(bi, [bl], D);
    OnDateSingle(al, D);
    OnDateSingle(bl, D);
    assert OnDate(a, D) == OnDate(ai, D) + [al];
    assert OnDate(b, D) == OnDate(bi, D) + [bl];
    var z := OnDate(a, D);
    assert z == OnDate(b, D);
    assert z[|z| - 1] == al && z[|z| - 1] == bl;
  }

  /** A record added under a fresh identifier appears exactly once in the
      list of its own month, and no other record there has its identifier. */
  lemma {:induction false} AddedRecordListed(s: seq<Transaction>, t: Transaction)
    requires t.id !in Ids(s)
    ensures t in MonthList(s + [t], MonthOf(t.date))
    ensures multiset(MonthList(s + [t], MonthOf(t.date)))[t] == 1
    ensures forall u :: u in MonthList(s + [t], MonthOf(t.date)) && u.id == t.id ==> u == t
  {
    var m := MonthOf(t.date);
    MonthListSpec(s + [t], m);
    KeepContents(s + [t], IsInMonth(m));
    assert t !in s;
    assert multiset(s + [t]) == multiset(s) + multiset{t};
    forall u | u in s ensures u.id != t.id {
      assert u.id in Ids(s);
    }
  }

  /** After `deleteTx(id)` no month list shows a record with that identifier. */
  lemma {:induction false} DeletedRecordUnlisted(s: seq<Transaction>, id: Id, m: MonthKey)
    ensures forall u :: u in MonthList(WithoutId(s, id), m) ==> u.id != id
  {
    MonthListSpec(WithoutId(s, id), m);
    WithoutIdSpec(s, id);
    forall u | u in WithoutId(s, id) ensures u.id != id {
      assert u.id in Ids(WithoutId(s, id));
    }
  }

  /** The calendar day a host shows at midnight UTC of `d`. `utcOffsetMinutes`
      is local time minus UTC: east of UTC (or on it) the clock already shows
      `d`, west of UTC it still shows the day before. */
  function LocalDay(d: Date, utcOffsetMinutes: int): Date
    requires ValidDate(d)
    requires -24 * 60 < utcOffsetMinutes < 24 * 60
  {
    if utcOffsetMinutes >= 0 then d else PrevDay(d)
  }

  /** `getMonthKey` as written: `new Date("YYYY-MM-DD")` is midnight UTC of
      that day, while `getFullYear` and `getMonth` read the host's local
      calendar. */
  function HostMonthKey(d: Date, utcOffsetMinutes: int): MonthKey
    requires ValidDate(d)
    requires -24 * 60 < utcOffsetMinutes < 24 * 60
  {
    MonthOf(LocalDay(d, utcOffsetMinutes))
  }

  /** The as-written key is the date's own month exactly when the host is
      not west of UTC or the date is not the first of its month. */
  lemma {:induction false} HostMonthKeyIsMonthOf(d: Date, utcOffsetMinutes: int)
    requires ValidDate(d)
    requires -24 * 60 < utcOffsetMinutes < 24 * 60
    ensures HostMonthKey(d, utcOffsetMinutes) == MonthOf(d) <==> utcOffsetMinutes >= 0 || d.day != 1
  {
  }

  /** The month filter `renderList` and `renderSummary` apply, as written.
      A date that is not `ValidDate` is treated as `Invalid Date`, whose key
      "NaN-NaN" no selected month equals. For a day past the month's end the
      parse is engine-dependent (an engine may roll it into the next month);
      that is not modelled. */
  function InMonthOnHost(s: seq<Transaction>, m: MonthKey, utcOffsetMinutes: int): seq<Transaction>
    requires -24 * 60 < utcOffsetMinutes < 24 * 60
  {
    Keep(s, (t: Transaction) => ValidDate(t.date) && HostMonthKey(t.date, utcOffsetMinutes) == m)
  }

  /** On a host five hours west of UTC, a record dated 2024-03-01 is missing
      from the March list and shows up under February. */
  lemma {:induction false} FirstOfMonthMisfiled(t: Transaction)
    requires t.date == Date(2024, 3, 1)
    ensures MonthOf(t.date) == MonthKey(2024, 3)
    ensures InMonthOnHost([t], MonthKey(2024, 3), -300) == []
    ensures InMonthOnHost([t], MonthKey(2024, 2), -300) == [t]
  {
    var one: seq<Transaction> := [t];
    assert one[..0] == [];
  }
}
