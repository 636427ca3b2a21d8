/** The operations on the transaction list that the form actions use:
    validation of a submission, the record it produces, lookup by id and
    removal by id. */
module Repository {
  import opened Records
  import opened Text
  import opened Seqs

  /** The identifiers present in a list of records. */
  function Ids(s: seq<Transaction>): set<Id> {
    set t | t in s :: t.id
  }

  /** No two records share an identifier. */
  predicate UniqueIds(s: seq<Transaction>) {
    forall i, j :: 0 <= i < j < |s| ==> s[i].id != s[j].id
  }

  /** The submission check: a date is present, the amount is a number and it
      is strictly positive. */
  predicate Acceptable(d: Draft) {
    d.date.Some? && d.amount.Number? && d.amount.value > 0
  }

  /** The record an acceptable submission stores under `id`, with description
      and category trimmed. */
  function Record(id: Id, d: Draft): Transaction
    requires Acceptable(d)
  {
    Transaction(id, d.kind, d.amount.value, Trim(d.description), Trim(d.category), d.date.value)
  }

  /** `findIndex(t => t.id === id)`: the position of the first record with
      identifier `id`, or `None` when there is none. */
  function IndexOfId(s: seq<Transaction>, id: Id): (r: Option<nat>)
    ensures r.None? <==> id !in Ids(s)
    ensures r.Some? ==> r.value < |s| && s[r.value].id == id
    ensures r.Some? ==> forall j :: 0 <= j < r.value ==> s[j].id != id
  {
    if s == [] then None
    else if s[0].id == id then Some(0)
    else
      match IndexOfId(s[1..], id)
      case None =>
        assert s == [s[0]] + s[1..];
        None
      case Some(k) => Some(k + 1)
  }

  /** The test `t => t.id !== id`. */
  function HasOtherId(id: Id): Transaction -> bool {
    (t: Transaction) => t.id != id
  }

  /** `filter(t => t.id !== id)`: every record except those with identifier `id`. */
  function WithoutId(s: seq<Transaction>, id: Id): seq<Transaction> {
    Keep(s, HasOtherId(id))
  }

  /** Deleting removes every record with the identifier, keeps every other
      record as often as it occurred, and keeps their relative order. */
  lemma {:induction false} WithoutIdSpec(s: seq<Transaction>, id: Id)
    ensures id !in Ids(WithoutId(s, id))
    ensures Ids(WithoutId(s, id)) == Ids(s) - {id}
    ensures forall t: Transaction :: t.id != id ==> multiset(WithoutId(s, id))[t] == multiset(s)[t]
    ensures IsSubsequence(WithoutId(s, id), s)
  {
    KeepContents(s, HasOtherId(id));
    KeepIsSubsequence(s, HasOtherId(id));
  }

  /** Deleting keeps identifiers unique. */
  lemma {:induction false} WithoutIdKeepsUnique(s: seq<Transaction>, id: Id)
    requires UniqueIds(s)
    ensures UniqueIds(WithoutId(s, id))
    decreases |s|
  {
    if s != [] {
      var init, last := s[..|s| - 1], s[|s| - 1];
      WithoutIdKeepsUnique(init, id);
      KeepContents(init, HasOtherId(id));
      var kept := WithoutId(init, id);
      forall k | 0 <= k < |kept| ensures kept[k].id != last.id {
        assert kept[k] in init;
        var i :| 0 <= i < |init| && init[i] == kept[k];
        assert s[i] == init[i];
      }
      assert WithoutId(s, id) == kept + (if last.id != id then [last] else []);
    }
  }

  /** A record appended under a fresh identifier is the one `findIndex`
      finds, and identifiers stay unique. */
  lemma {:induction false} AppendThenFind(s: seq<Transaction>, t: Transaction)
    requires t.id !in Ids(s)
    ensures UniqueIds(s) ==> UniqueIds(s + [t])
    ensures IndexOfId(s + [t], t.id) == Some(|s|)
  {
    var s' := s + [t];
    forall j | 0 <= j < |s| ensures s'[j].id != t.id {
      assert s'[j] == s[j] && s[j] in s;
      assert s[j].id in Ids(s);
    }
    assert t in s';
  }

  /** Updating the record found for `id` keeps its identifier and position:
      looking the identifier up again finds the updated fields, and no
      identifier is gained or lost. */
  lemma {:induction false} UpdateThenFind(s: seq<Transaction>, id: Id, d: Draft)
    requires Acceptable(d) && id in Ids(s)
    ensures
      var i := IndexOfId(s, id).value;
      var s' := s[i := Record(s[i].id, d)];
      && IndexOfId(s', id) == Some(i)
      && s'[i] == Record(id, d)
      && Ids(s') == Ids(s)
      && (UniqueIds(s) ==> UniqueIds(s'))
  {
    var i := IndexOfId(s, id).value;
    var s' := s[i := Record(s[i].id, d)];
    var r := IndexOfId(s', id);
    assert s'[i].id == id;
    assert r.Some?;
    assert r.value == i;
    forall x | x in Ids(s) ensures x in Ids(s') {
      var t :| t in s && t.id == x;
      var k :| 0 <= k < |s| && s[k] == t;
      assert s'[k].id == x;
    }
    forall x | x in Ids(s') ensures x in Ids(s) {
      var t :| t in s' && t.id == x;
      var k :| 0 <= k < |s'| && s'[k] == t;
      assert s[k].id == x;
    }
  }
}
