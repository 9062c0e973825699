/** The cluster's object store behind a patching applicator: Apply creates
    the object addressed by (kind, name) when it is absent and otherwise
    patches its spec.package to the new value. Whether a given Apply call
    fails (network, conflict, validation) is decided by an external oracle. */
module Store {
  import opened Wrappers
  import opened Packages

  /** Objects are addressed by kind and name. */
  type Key = (Kind, string)

  /** The store's contents: the spec.package of every package object. */
  type Objects = map<Key, string>

  /** rejects(c, p) holds when the Apply call with sequence number c
      (counted over every call the applicator has received) fails for p. */
  type Oracle = (nat, Package) -> bool

  function KeyOf(p: Package): Key
  {
    (p.kind, p.name)
  }

  function KeysOf(ps: seq<Package>): set<Key>
  {
    set p | p in ps :: KeyOf(p)
  }

  /** Create-or-patch: afterwards the object addressed by p holds p's
      package, and every other object is as it was. */
  function Upsert(objects: Objects, p: Package): Objects
  {
    objects[KeyOf(p) := p.package]
  }

  /** The store after upserting every record of ps, in order. */
  function UpsertAll(objects: Objects, ps: seq<Package>): Objects
    decreases |ps|
  {
    if ps == [] then objects else UpsertAll(Upsert(objects, ps[0]), ps[1..])
  }

  /** Upserting ps adds exactly the keys of ps and leaves every object
      whose key is not among them as it was. */
  lemma {:induction false} UpsertAllFrame(objects: Objects, ps: seq<Package>)
    ensures UpsertAll(objects, ps).Keys == objects.Keys + KeysOf(ps)
    ensures forall k :: k in objects && k !in KeysOf(ps) ==> UpsertAll(objects, ps)[k] == objects[k]
    decreases |ps|
  {
    if ps != [] {
      assert KeysOf(ps) == {KeyOf(ps[0])} + KeysOf(ps[1..]) by {
        assert ps == [ps[0]] + ps[1..];
      }
      UpsertAllFrame(Upsert(objects, ps[0]), ps[1..]);
    }
  }

  /** Upserting one more record after a sequence is upserting the longer
      sequence. */
  lemma {:induction false} UpsertAllSnoc(objects: Objects, ps: seq<Package>, p: Package)
    ensures UpsertAll(objects, ps + [p]) == Upsert(UpsertAll(objects, ps), p)
    decreases |ps|
  {
    if ps != [] {
      assert (ps + [p])[1..] == ps[1..] + [p];
      UpsertAllSnoc(Upsert(objects, ps[0]), ps[1..], p);
    }
  }

  /** The last record with a given key decides that object's package. */
  lemma {:induction false} UpsertAllLastWins(objects: Objects, ps: seq<Package>, i: nat)
    requires i < |ps|
    requires forall j :: i < j < |ps| ==> KeyOf(ps[j]) != KeyOf(ps[i])
    ensures KeyOf(ps[i]) in UpsertAll(objects, ps)
    ensures UpsertAll(objects, ps)[KeyOf(ps[i])] == ps[i].package
    decreases |ps|
  {
    UpsertAllFrame(objects, ps);
    if i == 0 {
      assert KeyOf(ps[0]) !in KeysOf(ps[1..]);
      UpsertAllFrame(Upsert(objects, ps[0]), ps[1..]);
    } else {
      UpsertAllLastWins(Upsert(objects, ps[0]), ps[1..], i - 1);
    }
  }

  /** Upserting a sequence overrides the old store with the store that the
      sequence alone would build. */
  lemma {:induction false} UpsertAllIsOverride(objects: Objects, ps: seq<Package>)
    ensures UpsertAll(objects, ps) == objects + UpsertAll(map[], ps)
    decreases |ps|
  {
    if ps != [] {
      var p, rest := ps[0], ps[1..];
      var w := UpsertAll(map[], rest);
      var one: Objects := map[KeyOf(p) := p.package];
      assert UpsertAll(objects, ps) == UpsertAll(objects[KeyOf(p) := p.package], rest);
      assert UpsertAll(map[], ps) == UpsertAll(one, rest);
      UpsertAllIsOverride(objects[KeyOf(p) := p.package], rest);
      UpsertAllIsOverride(one, rest);
      OverrideAssociative(objects, one, w);
      assert objects[KeyOf(p) := p.package] == objects + one;
    }
  }

  lemma OverrideAssociative(a: Objects, b: Objects, c: Objects)
    ensures a + b + c == a + (b + c)
  {
  }

  /** Applying the same records a second time changes nothing. */
  lemma UpsertAllIdempotent(objects: Objects, ps: seq<Package>)
    ensures UpsertAll(UpsertAll(objects, ps), ps) == UpsertAll(objects, ps)
  {
    UpsertAllIsOverride(objects, ps);
    UpsertAllIsOverride(UpsertAll(objects, ps), ps);
    var w := UpsertAll(map[], ps);
    assert objects + w + w == objects + w;
  }

  /** The store's contents together with the log of Apply calls received. */
  datatype State = State(objects: Objects, calls: seq<Package>)

  /** The outcome of applying a sequence: the index of the record whose
      Apply failed, if any, and the resulting state. */
  datatype Applied = Applied(failedAt: Option<nat>, state: State)

  /** Applies ps in order, stopping at the first failing call. The failing
      call is logged but changes no object; earlier calls are not undone. */
  function ApplyAll(s: State, rejects: Oracle, ps: seq<Package>): Applied
    decreases |ps|
  {
    if ps == [] then Applied(None, s)
    else if rejects(|s.calls|, ps[0]) then Applied(Some(0), State(s.objects, s.calls + [ps[0]]))
    else
      var rest := ApplyAll(State(Upsert(s.objects, ps[0]), s.calls + [ps[0]]), rejects, ps[1..]);
      match rest.failedAt
      case None => Applied(None, rest.state)
      case Some(k) => Applied(Some(k + 1), rest.state)
  }

  /** When ApplyAll succeeds, no call was rejected, every record is
      upserted and every call is logged. */
  lemma {:induction false} ApplyAllSucceeded(s: State, rejects: Oracle, ps: seq<Package>)
    requires ApplyAll(s, rejects, ps).failedAt.None?
    ensures forall j :: 0 <= j < |ps| ==> !rejects(|s.calls| + j, ps[j])
    ensures ApplyAll(s, rejects, ps).state == State(UpsertAll(s.objects, ps), s.calls + ps)
    decreases |ps|
  {
    if ps != [] {
      var s1 := State(Upsert(s.objects, ps[0]), s.calls + [ps[0]]);
      ApplyAllSucceeded(s1, rejects, ps[1..]);
      assert s.calls + ps == s1.calls + ps[1..] by {
        assert ps == [ps[0]] + ps[1..];
      }
      forall j | 1 <= j < |ps|
        ensures !rejects(|s.calls| + j, ps[j])
      {
        assert ps[j] == ps[1..][j - 1];
      }
    }
  }

  /** When ApplyAll fails at k, call k is the first rejected one, records
      before k are upserted (and stay so), calls 0..k are logged, and no
      record after k is applied. */
  lemma {:induction false} ApplyAllFailed(s: State, rejects: Oracle, ps: seq<Package>)
    requires ApplyAll(s, rejects, ps).failedAt.Some?
    ensures var k := ApplyAll(s, rejects, ps).failedAt.value;
      && k < |ps|
      && (forall j :: 0 <= j < k ==> !rejects(|s.calls| + j, ps[j]))
      && rejects(|s.calls| + k, ps[k])
      && ApplyAll(s, rejects, ps).state == State(UpsertAll(s.objects, ps[..k]), s.calls + ps[..k + 1])
    decreases |ps|
  {
    if !rejects(|s.calls|, ps[0]) {
      var s1 := State(Upsert(s.objects, ps[0]), s.calls + [ps[0]]);
      ApplyAllFailed(s1, rejects, ps[1..]);
      var rest := ApplyAll(s1, rejects, ps[1..]);
      var k := rest.failedAt.value;
      assert ApplyAll(s, rejects, ps) == Applied(Some(k + 1), rest.state);
      PrefixOfTail(ps, k);
      assert UpsertAll(s.objects, ps[..k + 1]) == UpsertAll(s1.objects, ps[1..][..k]);
      assert s.calls + ps[..k + 2] == s1.calls + ps[1..][..k + 1];
    }
  }

  /** Prefixes of ps and of its tail, related. */
  lemma PrefixOfTail<T>(ps: seq<T>, k: nat)
    requires k + 1 < |ps|
    ensures ps[..k + 1] == [ps[0]] + ps[1..][..k]
    ensures ps[..k + 2] == [ps[0]] + ps[1..][..k + 1]
    ensures forall j :: 1 <= j < |ps| ==> ps[j] == ps[1..][j - 1]
  {
  }

  /** When every call succeeds, ApplyAll upserts every record and logs
      every call. */
  lemma ApplyAllCompletes(s: State, rejects: Oracle, ps: seq<Package>)
    requires forall j :: 0 <= j < |ps| ==> !rejects(|s.calls| + j, ps[j])
    ensures ApplyAll(s, rejects, ps) == Applied(None, State(UpsertAll(s.objects, ps), s.calls + ps))
  {
    if ApplyAll(s, rejects, ps).failedAt.Some? {
      ApplyAllFailed(s, rejects, ps);
      assert false;
    }
    ApplyAllSucceeded(s, rejects, ps);
  }

  /** When call k is the first that fails, ApplyAll stops there. */
  lemma ApplyAllStopsAt(s: State, rejects: Oracle, ps: seq<Package>, k: nat)
    requires k < |ps|
    requires forall j :: 0 <= j < k ==> !rejects(|s.calls| + j, ps[j])
    requires rejects(|s.calls| + k, ps[k])
    ensures ApplyAll(s, rejects, ps) == Applied(Some(k), State(UpsertAll(s.objects, ps[..k]), s.calls + ps[..k + 1]))
  {
    if ApplyAll(s, rejects, ps).failedAt.None? {
      ApplyAllSucceeded(s, rejects, ps);
      assert false;
    }
    ApplyAllFailed(s, rejects, ps);
  }

  /** One more call, after a prefix of ps whose calls all succeeded: if it
      succeeds the longer prefix succeeded too; if it fails, applying the
      whole of ps fails there, whatever follows. */
  lemma ApplyAllSnoc(s: State, rejects: Oracle, ps: seq<Package>, k: nat, t: State)
    requires k < |ps|
    requires ApplyAll(s, rejects, ps[..k]) == Applied(None, t)
    ensures !rejects(|t.calls|, ps[k]) ==>
      ApplyAll(s, rejects, ps[..k + 1]) == Applied(None, State(Upsert(t.objects, ps[k]), t.calls + [ps[k]]))
    ensures rejects(|t.calls|, ps[k]) ==>
      ApplyAll(s, rejects, ps) == Applied(Some(k), State(t.objects, t.calls + [ps[k]]))
  {
    ApplyAllSucceeded(s, rejects, ps[..k]);
    assert forall j :: 0 <= j < k ==> ps[..k][j] == ps[j];
    assert ps[..k + 1] == ps[..k] + [ps[k]];
    if rejects(|t.calls|, ps[k]) {
      ApplyAllStopsAt(s, rejects, ps, k);
    } else {
      ApplyAllCompletes(s, rejects, ps[..k + 1]);
      UpsertAllSnoc(s.objects, ps[..k], ps[k]);
    }
  }

  /** The patching applicator over the cluster client. */
  class Applicator {
    var objects: Objects
    var calls: seq<Package>
    const rejects: Oracle

    function Current(): State
      reads this
    {
      State(objects, calls)
    }

    constructor (objects: Objects, rejects: Oracle)
      ensures Current() == State(objects, [])
      ensures this.rejects == rejects
    {
      this.objects := objects;
      this.calls := [];
      this.rejects := rejects;
    }

    /** Creates or patches the object p addresses; returns false when the
        call fails, in which case no object changes. Every call is logged. */
    method Apply(p: Package) returns (ok: bool)
      modifies this
      ensures ok == !rejects(|old(calls)|, p)
      ensures calls == old(calls) + [p]
      ensures objects == if ok then Upsert(old(objects), p) else old(objects)
    {
      ok := !rejects(|calls|, p);
      if ok {
        objects := Upsert(objects, p);
      }
      calls := calls + [p];
    }
  }
}
