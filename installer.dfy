/** The package installer run during initialisation: it makes sure that a
    list of Provider packages and a list of Configuration packages exist in
    the cluster. It builds every object first and only then applies them,
    Providers before Configurations, stopping at the first error. */
module Installer {
  import opened Wrappers
  import opened Packages
  import opened Store

  const ErrParsePackageName := "package name is not valid"
  const ErrApplyPackage := "cannot apply package"

  /** The phase an error comes from; each wraps its cause with its own
      message. */
  datatype Phase = ParsePackageName | ApplyPackage {
    function Message(): string
    {
      match this
      case ParsePackageName => ErrParsePackageName
      case ApplyPackage => ErrApplyPackage
    }
  }

  /** What Run returns: nil, or an error of a phase. The index is the
      position, in providers ++ configurations, of the reference whose parse
      or whose Apply failed. */
  datatype Outcome = Ok | Err(phase: Phase, index: nat)

  /** The whole run as a function of the inputs and the store's state
      before it: the outcome and the store's state after it. */
  function Install<R>(n: Naming<R>, providers: seq<string>, configurations: seq<string>,
                      rejects: Oracle, s: State): (Outcome, State)
  {
    match Desired(n, providers, configurations)
    case Failure(i) => (Err(ParsePackageName, i), s)
    case Success(ps) =>
      var a := ApplyAll(s, rejects, ps);
      match a.failedAt
      case None => (Ok, a.state)
      case Some(k) => (Err(ApplyPackage, k), a.state)
  }

  class PackageInstaller {
    var configurations: seq<string>
    var providers: seq<string>

    constructor (p: seq<string>, c: seq<string>)
      ensures providers == p && configurations == c
    {
      providers := p;
      configurations := c;
    }

    /** Makes sure all listed packages exist: builds the desired set into
        an array through a separate index, then applies it element by
        element, returning on the first error. */
    method Run<R>(n: Naming<R>, kube: Applicator) returns (err: Outcome)
      modifies kube
      ensures (err, kube.Current()) == Install(n, providers, configurations, kube.rejects, old(kube.Current()))
    {
      var pkgs := new Package[|providers| + |configurations|];
      var pkgsIdx := 0;
      for i := 0 to |providers|
        modifies pkgs
        invariant pkgsIdx == i
        invariant forall j :: 0 <= j < pkgsIdx ==> Slot(n, providers, configurations, j) == Some(pkgs[j])
      {
        var name := n.parse(providers[i]);
        if name.None? {
          InstallStopsAtBadName(n, providers, configurations, kube.rejects, kube.Current(), pkgsIdx);
          return Err(ParsePackageName, pkgsIdx);
        }
        var p := Package(Provider, n.toDNSLabel(n.packageSource(name.value)), n.canonical(name.value));
        pkgs[pkgsIdx] := p;
        pkgsIdx := pkgsIdx + 1;
      }
      for i := 0 to |configurations|
        modifies pkgs
        invariant pkgsIdx == |providers| + i
        invariant forall j :: 0 <= j < pkgsIdx ==> Slot(n, providers, configurations, j) == Some(pkgs[j])
      {
        var name := n.parse(configurations[i]);
        if name.None? {
          InstallStopsAtBadName(n, providers, configurations, kube.rejects, kube.Current(), pkgsIdx);
          return Err(ParsePackageName, pkgsIdx);
        }
        var c := Package(Configuration, n.toDNSLabel(n.packageSource(name.value)), n.canonical(name.value));
        pkgs[pkgsIdx] := c;
        pkgsIdx := pkgsIdx + 1;
      }
      ghost var ps := pkgs[..];
      DesiredIs(n, providers, configurations, ps);

      ghost var s0 := kube.Current();
      ghost var rej := kube.rejects;
      for k := 0 to pkgs.Length
        invariant pkgs[..] == ps
        invariant ApplyAll(s0, rej, ps[..k]) == Applied(None, kube.Current())
      {
        ghost var before := kube.Current();
        var ok := kube.Apply(pkgs[k]);
        ApplyAllSnoc(s0, rej, ps, k, before);
        if !ok {
          return Err(ApplyPackage, k);
        }
      }
      assert ps[..pkgs.Length] == ps;
      return Ok;
    }
  }

  /** When position i is the first reference that does not parse, the run
      reports it and leaves the store untouched. */
  lemma InstallStopsAtBadName<R>(n: Naming<R>, providers: seq<string>, configurations: seq<string>,
                                 rejects: Oracle, s: State, i: nat)
    requires IsFirstInvalid(n, providers, configurations, i)
    ensures Install(n, providers, configurations, rejects, s) == (Err(ParsePackageName, i), s)
  {
    DesiredSpec(n, providers, configurations);
    DesiredSucceedsIffAllParse(n, providers, configurations);
    FirstInvalidUnique(n, providers, configurations, i, Desired(n, providers, configurations).error);
  }

  /** The run reports a parse error exactly for the first reference, in
      Providers-then-Configurations order, that does not parse; and then no
      Apply call is made at all, even for the references before it. */
  lemma ParseErrorAppliesNothing<R>(n: Naming<R>, providers: seq<string>, configurations: seq<string>,
                                    rejects: Oracle, s: State, i: nat)
    ensures Install(n, providers, configurations, rejects, s).0 == Err(ParsePackageName, i) <==>
      IsFirstInvalid(n, providers, configurations, i)
    ensures Install(n, providers, configurations, rejects, s).0 == Err(ParsePackageName, i) ==>
      Install(n, providers, configurations, rejects, s).1 == s
  {
    DesiredSpec(n, providers, configurations);
    if IsFirstInvalid(n, providers, configurations, i) {
      InstallStopsAtBadName(n, providers, configurations, rejects, s, i);
    }
  }

  /** An apply error at k comes after every reference parsed: call k was
      the first rejected one, the records before k stay applied, calls
      0..k were made and no record after k was applied. */
  lemma ApplyErrorKeepsPrefix<R>(n: Naming<R>, providers: seq<string>, configurations: seq<string>,
                                 rejects: Oracle, s: State, k: nat)
    requires Install(n, providers, configurations, rejects, s).0 == Err(ApplyPackage, k)
    ensures Desired(n, providers, configurations).Success?
    ensures var ps := Desired(n, providers, configurations).value;
      && k < |ps|
      && (forall j :: 0 <= j < k ==> !rejects(|s.calls| + j, ps[j]))
      && rejects(|s.calls| + k, ps[k])
      && Install(n, providers, configurations, rejects, s).1 ==
           State(UpsertAll(s.objects, ps[..k]), s.calls + ps[..k + 1])
  {
    InstallRejectsOnlyBadNames(n, providers, configurations, rejects, s);
    var ps := Desired(n, providers, configurations).value;
    InstallApplies(n, providers, configurations, rejects, s, ps);
    var a := ApplyAll(s, rejects, ps);
    assert a.failedAt == Some(k);
    ApplyAllFailed(s, rejects, ps);
    assert a.state == State(UpsertAll(s.objects, ps[..k]), s.calls + ps[..k + 1]);
  }

  /** The run's result when the desired set cannot be built. */
  lemma InstallRejectsOnlyBadNames<R>(n: Naming<R>, providers: seq<string>, configurations: seq<string>,
                                      rejects: Oracle, s: State)
    ensures Desired(n, providers, configurations).Failure? ==>
      Install(n, providers, configurations, rejects, s) == (Err(ParsePackageName, Desired(n, providers, configurations).error), s)
  {
  }

  /** The run's result once the desired set ps is built. */
  lemma InstallApplies<R>(n: Naming<R>, providers: seq<string>, configurations: seq<string>,
                          rejects: Oracle, s: State, ps: seq<Package>)
    requires Desired(n, providers, configurations) == Success(ps)
    ensures Install(n, providers, configurations, rejects, s).1 == ApplyAll(s, rejects, ps).state
    ensures Install(n, providers, configurations, rejects, s).0 ==
      if ApplyAll(s, rejects, ps).failedAt.None? then Ok else Err(ApplyPackage, ApplyAll(s, rejects, ps).failedAt.value)
  {
  }

  /** A successful run made exactly |providers| + |configurations| Apply
      calls: first the Provider built from each Provider reference, in
      order, then the Configuration built from each Configuration
      reference, in order; and the store holds all of them. */
  lemma SuccessAppliesEveryPackageInOrder<R>(n: Naming<R>, providers: seq<string>, configurations: seq<string>,
                                             rejects: Oracle, s: State)
    requires Install(n, providers, configurations, rejects, s).0 == Ok
    ensures var t := Install(n, providers, configurations, rejects, s).1;
      && |t.calls| == |s.calls| + |providers| + |configurations|
      && t.calls[..|s.calls|] == s.calls
      && (forall i :: 0 <= i < |providers| ==> Build(n, Provider, providers[i]) == Some(t.calls[|s.calls| + i]))
      && (forall j :: 0 <= j < |configurations| ==>
            Build(n, Configuration, configurations[j]) == Some(t.calls[|s.calls| + |providers| + j]))
      && t.objects == UpsertAll(s.objects, Desired(n, providers, configurations).value)
  {
    var ps := Desired(n, providers, configurations).value;
    DesiredSpec(n, providers, configurations);
    InstallApplies(n, providers, configurations, rejects, s, ps);
    ApplyAllSucceeded(s, rejects, ps);
    var t := ApplyAll(s, rejects, ps).state;
    assert t.calls == s.calls + ps;
    assert t.calls[..|s.calls|] == s.calls;
    forall i | 0 <= i < |providers|
      ensures Build(n, Provider, providers[i]) == Some(t.calls[|s.calls| + i])
    {
      assert t.calls[|s.calls| + i] == ps[i];
    }
    forall j | 0 <= j < |configurations|
      ensures Build(n, Configuration, configurations[j]) == Some(t.calls[|s.calls| + |providers| + j])
    {
      assert t.calls[|s.calls| + |providers| + j] == ps[|providers| + j];
    }
  }

  /** With no references at all the run succeeds without any Apply call. */
  lemma EmptyInstallIsNoop<R>(n: Naming<R>, rejects: Oracle, s: State)
    ensures Install(n, [], [], rejects, s) == (Ok, s)
  {
  }

  /** Whatever the outcome, the run only appends to the log of Apply calls,
      and what it appends is a prefix of the desired set. */
  lemma CallsFollowDesired<R>(n: Naming<R>, providers: seq<string>, configurations: seq<string>,
                              rejects: Oracle, s: State)
    ensures var t := Install(n, providers, configurations, rejects, s).1;
      && |s.calls| <= |t.calls|
      && t.calls[..|s.calls|] == s.calls
      && (|t.calls| > |s.calls| ==> Desired(n, providers, configurations).Success?)
      && forall i :: |s.calls| <= i < |t.calls| ==>
           && i - |s.calls| < |Desired(n, providers, configurations).value|
           && t.calls[i] == Desired(n, providers, configurations).value[i - |s.calls|]
  {
    var d := Desired(n, providers, configurations);
    if d.Success? {
      var ps := d.value;
      var a := ApplyAll(s, rejects, ps);
      if a.failedAt.None? {
        ApplyAllSucceeded(s, rejects, ps);
      } else {
        ApplyAllFailed(s, rejects, ps);
      }
    }
  }

  /** Every Provider in the desired set comes before every Configuration. */
  lemma DesiredKinds<R>(n: Naming<R>, providers: seq<string>, configurations: seq<string>)
    requires Desired(n, providers, configurations).Success?
    ensures var ps := Desired(n, providers, configurations).value;
      forall i :: 0 <= i < |ps| ==> (ps[i].kind == Provider <==> i < |providers|)
  {
  }

  /** No Apply call for a Configuration precedes an Apply call for a
      Provider within a run, whatever its outcome. */
  lemma ProvidersBeforeConfigurations<R>(n: Naming<R>, providers: seq<string>, configurations: seq<string>,
                                         rejects: Oracle, s: State)
    ensures var t := Install(n, providers, configurations, rejects, s).1;
      forall i, j :: |s.calls| <= i < j < |t.calls| && t.calls[i].kind == Configuration ==>
        t.calls[j].kind == Configuration
  {
    CallsFollowDesired(n, providers, configurations, rejects, s);
    if Desired(n, providers, configurations).Success? {
      DesiredKinds(n, providers, configurations);
    }
  }

  /** Running the installer again after a successful run, if that run
      succeeds too, leaves every object as the first run left it. */
  lemma RerunChangesNothing<R>(n: Naming<R>, providers: seq<string>, configurations: seq<string>,
                               rejects: Oracle, rejects2: Oracle, s: State)
    requires Install(n, providers, configurations, rejects, s).0 == Ok
    requires Install(n, providers, configurations, rejects2, Install(n, providers, configurations, rejects, s).1).0 == Ok
    ensures Install(n, providers, configurations, rejects2, Install(n, providers, configurations, rejects, s).1).1.objects ==
      Install(n, providers, configurations, rejects, s).1.objects
  {
    var t := Install(n, providers, configurations, rejects, s).1;
    SuccessAppliesEveryPackageInOrder(n, providers, configurations, rejects, s);
    SuccessAppliesEveryPackageInOrder(n, providers, configurations, rejects2, t);
    UpsertAllIdempotent(s.objects, Desired(n, providers, configurations).value);
  }

  /** After a successful run, the object addressed by a record of the
      desired set holds that record's package unless a later record has
      the same kind and name (for instance the same repository under
      another tag), in which case the later one wins. */
  lemma LaterReferenceWins<R>(n: Naming<R>, providers: seq<string>, configurations: seq<string>,
                              rejects: Oracle, s: State, i: nat)
    requires Install(n, providers, configurations, rejects, s).0 == Ok
    requires i < |providers| + |configurations|
    requires var ps := Desired(n, providers, configurations).value;
      forall j :: i < j < |ps| ==> KeyOf(ps[j]) != KeyOf(ps[i])
    ensures var ps := Desired(n, providers, configurations).value;
      var objects := Install(n, providers, configurations, rejects, s).1.objects;
      KeyOf(ps[i]) in objects && objects[KeyOf(ps[i])] == ps[i].package
  {
    var ps := Desired(n, providers, configurations).value;
    SuccessAppliesEveryPackageInOrder(n, providers, configurations, rejects, s);
    UpsertAllLastWins(s.objects, ps, i);
  }

  /** The two error kinds carry different messages. */
  lemma PhaseMessagesDiffer()
    ensures ParsePackageName.Message() != ApplyPackage.Message()
  {
  }
}
