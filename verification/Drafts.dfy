/** An event as the sequence of `insert` calls that builds it, at every depth: the order of the
    calls never shows in the canonical bytes (crates/vihs-core/src/chain.rs:31-33). */
module Drafts {
  import opened Json
  import opened Canonical

  datatype Draft = Scalar(v: Value) | List(items: seq<Draft>) | Object(members: seq<Member>)

  datatype Member = Member(key: string, draft: Draft)

  function Built(d: Draft): Value
    decreases d, 1
  {
    match d
    case Scalar(v) => v
    case List(items) => Arr(BuiltItems(items))
    case Object(members) => Obj(BuiltMembers(members))
  }

  function BuiltItems(items: seq<Draft>): (r: seq<Value>)
    ensures |r| == |items|
    decreases items, 0
  {
    if items == [] then [] else BuiltItems(items[..|items| - 1]) + [Built(items[|items| - 1])]
  }

  function BuiltMembers(members: seq<Member>): map<string, Value>
    decreases members, 0
  {
    if members == [] then map[]
    else
      var m := members[|members| - 1];
      BuiltMembers(members[..|members| - 1])[m.key := Built(m.draft)]
  }

  predicate Distinct(members: seq<Member>) {
    forall i, j | 0 <= i < j < |members| :: members[i].key != members[j].key
  }

  /** No object names a member twice. */
  predicate WellKeyed(d: Draft) {
    match d
    case Scalar(_) => true
    case List(items) => forall i | 0 <= i < |items| :: WellKeyed(items[i])
    case Object(members) => Distinct(members) && forall i | 0 <= i < |members| :: WellKeyed(members[i].draft)
  }

  /** The same members at every depth, in whatever order. */
  predicate Reordered(a: Draft, b: Draft) {
    match a
    case Scalar(_) => a == b
    case List(items) =>
      b.List? && |items| == |b.items| && forall i | 0 <= i < |items| :: Reordered(items[i], b.items[i])
    case Object(members) =>
      && b.Object?
      && (forall i | 0 <= i < |members| :: exists j | 0 <= j < |b.members| ::
            members[i].key == b.members[j].key && Reordered(members[i].draft, b.members[j].draft))
      && (forall j | 0 <= j < |b.members| :: Names(members, b.members[j].key))
  }

  predicate Names(members: seq<Member>, k: string) { exists i | 0 <= i < |members| :: members[i].key == k }

  lemma {:induction false} BuiltItemsAt(items: seq<Draft>, i: nat)
    requires i < |items|
    ensures BuiltItems(items)[i] == Built(items[i])
  {
    var n := |items| - 1;
    if i < n {
      BuiltItemsAt(items[..n], i);
      assert BuiltItems(items)[i] == BuiltItems(items[..n])[i];
    }
  }

  lemma {:induction false} BuiltKeys(members: seq<Member>, k: string)
    ensures k in BuiltMembers(members) <==> Names(members, k)
  {
    if members != [] {
      var n := |members| - 1;
      BuiltKeys(members[..n], k);
      assert forall i | 0 <= i < n :: members[..n][i] == members[i];
    }
  }

  lemma {:induction false} BuiltMembersAt(members: seq<Member>, i: nat)
    requires Distinct(members) && i < |members|
    ensures members[i].key in BuiltMembers(members) && BuiltMembers(members)[members[i].key] == Built(members[i].draft)
  {
    var n := |members| - 1;
    if i < n {
      assert members[..n][i] == members[i];
      BuiltMembersAt(members[..n], i);
    }
  }

  lemma {:induction false} ReorderedBuildsSame(a: Draft, b: Draft)
    requires WellKeyed(a) && WellKeyed(b) && Reordered(a, b)
    ensures Built(a) == Built(b)
    decreases a
  {
    match a
    case Scalar(_) =>
    case List(items) =>
      forall i | 0 <= i < |items| ensures BuiltItems(items)[i] == BuiltItems(b.items)[i] {
        ReorderedBuildsSame(items[i], b.items[i]);
        BuiltItemsAt(items, i);
        BuiltItemsAt(b.items, i);
      }
    case Object(members) =>
      forall i | 0 <= i < |members|
        ensures HasMember(BuiltMembers(b.members), members[i].key, Built(members[i].draft))
      {
        var j :| 0 <= j < |b.members| && members[i].key == b.members[j].key
          && Reordered(members[i].draft, b.members[j].draft);
        ReorderedBuildsSame(members[i].draft, b.members[j].draft);
        BuiltMembersAt(b.members, j);
      }
      SameObject(members, b.members);
  }

  predicate HasMember(fields: map<string, Value>, k: string, v: Value) { k in fields && fields[k] == v }

  lemma SameObject(a: seq<Member>, b: seq<Member>)
    requires Distinct(a)
    requires forall i | 0 <= i < |a| :: HasMember(BuiltMembers(b), a[i].key, Built(a[i].draft))
    requires forall j | 0 <= j < |b| :: Names(a, b[j].key)
    ensures BuiltMembers(a) == BuiltMembers(b)
  {
    var x, y := BuiltMembers(a), BuiltMembers(b);
    forall k ensures k in x <==> k in y { SameNames(a, b, k); }
    forall k | k in x ensures x[k] == y[k] { SameField(a, y, k); }
    SameMap(x, y);
  }

  lemma SameMap(x: map<string, Value>, y: map<string, Value>)
    requires (forall k :: k in x <==> k in y) && forall k :: k in x ==> x[k] == y[k]
    ensures x == y
  {}

  lemma SameNames(a: seq<Member>, b: seq<Member>, k: string)
    requires forall i | 0 <= i < |a| :: HasMember(BuiltMembers(b), a[i].key, Built(a[i].draft))
    requires forall j | 0 <= j < |b| :: Names(a, b[j].key)
    ensures k in BuiltMembers(a) <==> k in BuiltMembers(b)
  {
    BuiltKeys(a, k);
    BuiltKeys(b, k);
    if Names(a, k) {
      var i :| 0 <= i < |a| && a[i].key == k;
      assert HasMember(BuiltMembers(b), a[i].key, Built(a[i].draft));
    }
  }

  lemma SameField(a: seq<Member>, y: map<string, Value>, k: string)
    requires Distinct(a) && k in BuiltMembers(a)
    requires forall i | 0 <= i < |a| :: HasMember(y, a[i].key, Built(a[i].draft))
    ensures k in y && BuiltMembers(a)[k] == y[k]
  {
    BuiltKeys(a, k);
    var i :| 0 <= i < |a| && a[i].key == k;
    BuiltMembersAt(a, i);
    assert HasMember(y, a[i].key, Built(a[i].draft));
  }

  /** Building an event in another order, at any depth, never changes its canonical bytes. */
  lemma InsertionOrderIrrelevant(a: Draft, b: Draft)
    requires WellKeyed(a) && WellKeyed(b) && Reordered(a, b)
    ensures CanonicalBytes(Built(a)) == CanonicalBytes(Built(b))
  {
    ReorderedBuildsSame(a, b);
  }
}
