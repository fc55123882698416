/** The query shapes the controllers use on a store `map<Id, T>`:
    `find(filter)` in ascending identifier order (the store leaves that order
    unspecified; this one is the model's choice), `find(filter).sort({createdAt: -1})`
    and `countDocuments(filter)`. The filter and the projection that `select`
    applies are passed as functions. */
module Listing {
  import opened Common

  /** One document of a query result: its identifier and the projected fields. */
  datatype Doc<V> = Doc(id: Id, fields: V)

  /** Below any member of a set of naturals there is a least member. */
  lemma {:induction false} LeastBelow(s: set<nat>, n: nat)
    requires n in s
    ensures exists k :: k in s && forall j :: j in s ==> k <= j
    decreases n
  {
    if forall j :: j in s ==> n <= j {
      assert n in s && forall j :: j in s ==> n <= j;
    } else {
      var j :| j in s && j < n;
      LeastBelow(s, j);
    }
  }

  /** A non-empty set of naturals has a least member. */
  lemma LeastExists(s: set<nat>)
    requires s != {}
    ensures exists k :: k in s && forall j :: j in s ==> k <= j
  {
    var x :| x in s;
    LeastBelow(s, x);
  }

  /** The smallest identifier of a non-empty set: the earliest inserted. */
  function Least(s: set<nat>): (k: nat)
    requires s != {}
    ensures k in s && forall j :: j in s ==> k <= j
  {
    LeastExists(s);
    var k :| k in s && forall j :: j in s ==> k <= j; k
  }

  /** The identifiers in `ks` whose document passes `keep`, in increasing
      order. */
  function Scan<T>(m: map<Id, T>, ks: set<Id>, keep: T -> bool): (r: seq<Id>)
    requires ks <= m.Keys
    ensures forall k :: k in r <==> k in ks && keep(m[k])
    ensures forall i, j :: 0 <= i < j < |r| ==> r[i] < r[j]
    decreases ks
  {
    if ks == {} then []
    else
      var k := Least(ks);
      var rest := Scan(m, ks - {k}, keep);
      assert forall i :: 0 <= i < |rest| ==> rest[i] in ks - {k};
      if keep(m[k]) then [k] + rest else rest
  }

  /** Every identifier of `r` names a document of `m`, and no document is
      listed after a strictly newer one. */
  ghost predicate NewestFirst<T>(r: seq<Id>, m: map<Id, T>, age: T -> nat) {
    (forall i :: 0 <= i < |r| ==> r[i] in m) &&
    forall i, j :: 0 <= i < j < |r| ==> age(m[r[i]]) >= age(m[r[j]])
  }

  /** Inserts `k` in front of the first element not newer than it. */
  function Insert<T>(k: Id, r: seq<Id>, m: map<Id, T>, age: T -> nat): (r': seq<Id>)
    requires k in m && k !in r && Distinct(r) && NewestFirst(r, m, age)
    ensures forall x :: x in r' <==> x == k || x in r
    ensures |r'| == |r| + 1 && Distinct(r') && NewestFirst(r', m, age)
  {
    if r == [] || age(m[k]) >= age(m[r[0]]) then
      [k] + r
    else
      var t := Insert(k, r[1..], m, age);
      assert forall j :: 0 <= j < |t| ==> t[j] == k || t[j] in r[1..];
      [r[0]] + t
  }

  /** `find(filter).sort({createdAt: -1})` restricted to the identifiers `ks`. */
  function Sorted<T>(m: map<Id, T>, ks: set<Id>, keep: T -> bool, age: T -> nat): (r: seq<Id>)
    requires ks <= m.Keys
    ensures forall k :: k in r <==> k in ks && keep(m[k])
    ensures Distinct(r) && NewestFirst(r, m, age)
    decreases ks
  {
    if ks == {} then []
    else
      var k := Least(ks);
      var rest := Sorted(m, ks - {k}, keep, age);
      if keep(m[k]) then Insert(k, rest, m, age) else rest
  }

  /** The identifiers in `ks` whose document passes `keep`. */
  ghost function Matching<T>(m: map<Id, T>, ks: set<Id>, keep: T -> bool): set<Id>
    requires ks <= m.Keys
  {
    set k | k in ks && keep(m[k])
  }

  /** `countDocuments(filter)`. */
  function Count<T>(m: map<Id, T>, ks: set<Id>, keep: T -> bool): (n: nat)
    requires ks <= m.Keys
    ensures n == |Matching(m, ks, keep)|
    decreases ks
  {
    if ks == {} then 0
    else
      var first := Least(ks);
      var n := Count(m, ks - {first}, keep);
      ghost var all := Matching(m, ks, keep);
      ghost var others := Matching(m, ks - {first}, keep);
      if keep(m[first]) then
        assert all == others + {first} && first !in others;
        assert |all| == |others| + 1;
        n + 1
      else
        assert all == others;
        n
  }

  /** The projection `select` applies to each listed document. */
  function Project<T, V>(ids: seq<Id>, m: map<Id, T>, view: T -> V): (docs: seq<Doc<V>>)
    requires forall i :: 0 <= i < |ids| ==> ids[i] in m
    ensures |docs| == |ids|
    ensures forall i :: 0 <= i < |ids| ==> docs[i] == Doc(ids[i], view(m[ids[i]]))
  {
    seq(|ids|, i requires 0 <= i < |ids| => Doc(ids[i], view(m[ids[i]])))
  }

  /** `docs` lists each document of `m` that passes `keep` exactly once,
      projected by `view`, and nothing else. */
  ghost predicate Exactly<T, V>(docs: seq<Doc<V>>, m: map<Id, T>, keep: T -> bool, view: T -> V) {
    (forall i :: 0 <= i < |docs| ==>
      docs[i].id in m && keep(m[docs[i].id]) && docs[i].fields == view(m[docs[i].id])) &&
    (forall id :: id in m && keep(m[id]) ==> exists i :: 0 <= i < |docs| && docs[i].id == id) &&
    (forall i, j :: 0 <= i < j < |docs| ==> docs[i].id != docs[j].id)
  }

  /** A listing that holds exactly the matching documents mentions an
      identifier if and only if that document is stored and passes the filter. */
  lemma ExactlyListsIff<T, V>(docs: seq<Doc<V>>, m: map<Id, T>, keep: T -> bool, view: T -> V, id: Id)
    requires Exactly(docs, m, keep, view)
    ensures (exists i :: 0 <= i < |docs| && docs[i].id == id) <==> id in m && keep(m[id])
  {
    if exists i :: 0 <= i < |docs| && docs[i].id == id {
      var i :| 0 <= i < |docs| && docs[i].id == id;
      assert docs[i].id in m && keep(m[docs[i].id]);
    }
  }

  /** The documents of `docs` appear newest first by `age`. */
  ghost predicate DocsNewestFirst<T, V>(docs: seq<Doc<V>>, m: map<Id, T>, age: T -> nat) {
    forall i, j :: 0 <= i < j < |docs| && docs[i].id in m && docs[j].id in m ==>
      age(m[docs[i].id]) >= age(m[docs[j].id])
  }

  /** `Model.find(filter).select(view)`, in ascending identifier order, the
      order this model picks for an unsorted query. */
  function Find<T, V>(m: map<Id, T>, keep: T -> bool, view: T -> V): (docs: seq<Doc<V>>)
    ensures Exactly(docs, m, keep, view)
    ensures forall i, j :: 0 <= i < j < |docs| ==> docs[i].id < docs[j].id
  {
    Project(Scan(m, m.Keys, keep), m, view)
  }

  /** `Model.find(filter).select(view).sort({createdAt: -1})`. */
  function FindNewestFirst<T, V>(m: map<Id, T>, keep: T -> bool, view: T -> V, age: T -> nat): (docs: seq<Doc<V>>)
    ensures Exactly(docs, m, keep, view)
    ensures DocsNewestFirst(docs, m, age)
  {
    Project(Sorted(m, m.Keys, keep, age), m, view)
  }
}
