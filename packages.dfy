/** Building the desired set: every raw Provider reference, then every raw
    Configuration reference, is parsed and turned into a package object whose
    name is derived from the reference's source and whose spec.package is the
    canonical reference. */
module Packages {
  import opened Wrappers

  /** The two package kinds the installer creates. */
  datatype Kind = Provider | Configuration

  /** A Provider or Configuration object, reduced to what the installer sets:
      its kind, its metadata name and its spec.package. */
  datatype Package = Package(kind: Kind, name: string, package: string)

  /** The library functions the installer relies on; R is the type of a
      parsed image reference.
      - parse: reference parsing with an empty default registry, None when
        the raw string is not a valid reference;
      - packageSource: the registry and repository of a reference, without
        tag or digest;
      - toDNSLabel: the mapping of a source to a DNS-label-safe name;
      - canonical: the reference printed back in canonical form. */
  datatype Naming<!R> = Naming(
    parse: string -> Option<R>,
    packageSource: R -> string,
    toDNSLabel: string -> string,
    canonical: R -> string)

  /** The object name derived from a parsed reference. */
  function NameOf<R>(n: Naming<R>, ref: R): string
  {
    n.toDNSLabel(n.packageSource(ref))
  }

  /** One iteration of a build loop: parse img and construct the object of
      the given kind, or None when img is not a valid reference. */
  function Build<R>(n: Naming<R>, kind: Kind, img: string): Option<Package>
  {
    match n.parse(img)
    case None => None
    case Some(ref) => Some(Package(kind, NameOf(n, ref), n.canonical(ref)))
  }

  /** What the build loops produce at position i of providers ++
      configurations: a Provider for the first |providers| positions, a
      Configuration after them, None when that reference does not parse. */
  function Slot<R>(n: Naming<R>, providers: seq<string>, configurations: seq<string>, i: nat): Option<Package>
    requires i < |providers| + |configurations|
  {
    if i < |providers| then Build(n, Provider, providers[i])
    else Build(n, Configuration, configurations[i - |providers|])
  }

  /** Whether the raw reference at position i of providers ++ configurations
      fails to parse. */
  predicate Invalid<R>(n: Naming<R>, providers: seq<string>, configurations: seq<string>, i: nat)
    requires i < |providers| + |configurations|
  {
    Slot(n, providers, configurations, i).None?
  }

  /** i is the first position of providers ++ configurations whose reference
      fails to parse. */
  predicate IsFirstInvalid<R>(n: Naming<R>, providers: seq<string>, configurations: seq<string>, i: nat)
  {
    && i < |providers| + |configurations|
    && Invalid(n, providers, configurations, i)
    && forall j :: 0 <= j < i ==> !Invalid(n, providers, configurations, j)
  }

  /** Builds the references of imgs in order, stopping at the first one that
      does not parse and reporting its index. */
  function BuildAll<R>(n: Naming<R>, kind: Kind, imgs: seq<string>): (r: Result<seq<Package>, nat>)
    ensures r.Success? ==>
      && |r.value| == |imgs|
      && forall i :: 0 <= i < |imgs| ==> Build(n, kind, imgs[i]) == Some(r.value[i])
    ensures r.Failure? ==>
      && r.error < |imgs|
      && n.parse(imgs[r.error]).None?
      && forall i :: 0 <= i < r.error ==> n.parse(imgs[i]).Some?
    decreases |imgs|
  {
    if imgs == [] then Success([])
    else
      match Build(n, kind, imgs[0])
      case None => Failure(0)
      case Some(p) =>
        match BuildAll(n, kind, imgs[1..])
        case Failure(i) => Failure(i + 1)
        case Success(ps) => Success([p] + ps)
  }

  /** The desired set: all Providers in input order followed by all
      Configurations in input order, or the position (counted over
      providers ++ configurations) of the first reference that fails to
      parse. */
  function Desired<R>(n: Naming<R>, providers: seq<string>, configurations: seq<string>): Result<seq<Package>, nat>
  {
    match BuildAll(n, Provider, providers)
    case Failure(i) => Failure(i)
    case Success(ps) =>
      match BuildAll(n, Configuration, configurations)
      case Failure(j) => Failure(|providers| + j)
      case Success(cs) => Success(ps + cs)
  }

  /** The desired set holds, in this order, the Provider built from each
      Provider reference and the Configuration built from each
      Configuration reference; when it cannot be built, the position
      reported is the first reference that does not parse. */
  lemma DesiredSpec<R>(n: Naming<R>, providers: seq<string>, configurations: seq<string>)
    ensures var r := Desired(n, providers, configurations);
      r.Success? ==>
        && |r.value| == |providers| + |configurations|
        && (forall i :: 0 <= i < |providers| ==> Build(n, Provider, providers[i]) == Some(r.value[i]))
        && (forall j :: 0 <= j < |configurations| ==>
              Build(n, Configuration, configurations[j]) == Some(r.value[|providers| + j]))
    ensures var r := Desired(n, providers, configurations);
      r.Failure? ==> IsFirstInvalid(n, providers, configurations, r.error)
  {
  }

  /** The desired set is built exactly when every reference parses. */
  lemma DesiredSucceedsIffAllParse<R>(n: Naming<R>, providers: seq<string>, configurations: seq<string>)
    ensures Desired(n, providers, configurations).Success? <==>
      forall i :: 0 <= i < |providers| + |configurations| ==> !Invalid(n, providers, configurations, i)
  {
    DesiredSpec(n, providers, configurations);
    var r := Desired(n, providers, configurations);
    if r.Success? {
      forall i | 0 <= i < |providers| + |configurations|
        ensures !Invalid(n, providers, configurations, i)
      {
        if i >= |providers| {
          assert Build(n, Configuration, configurations[i - |providers|]).Some?;
        }
      }
    }
  }

  /** The desired set is the one sequence that holds, at each position, what
      the build loops produce there. */
  lemma DesiredIs<R>(n: Naming<R>, providers: seq<string>, configurations: seq<string>, a: seq<Package>)
    requires |a| == |providers| + |configurations|
    requires forall i :: 0 <= i < |a| ==> Slot(n, providers, configurations, i) == Some(a[i])
    ensures Desired(n, providers, configurations) == Success(a)
  {
    DesiredSpec(n, providers, configurations);
    DesiredSucceedsIffAllParse(n, providers, configurations);
    var d := Desired(n, providers, configurations).value;
    forall i | 0 <= i < |a|
      ensures d[i] == a[i]
    {
      if i >= |providers| {
        assert Slot(n, providers, configurations, i) == Build(n, Configuration, configurations[i - |providers|]);
      }
    }
    assert d == a;
  }

  /** At most one position is the first unparseable one. */
  lemma FirstInvalidUnique<R>(n: Naming<R>, providers: seq<string>, configurations: seq<string>, i: nat, j: nat)
    requires IsFirstInvalid(n, providers, configurations, i)
    requires IsFirstInvalid(n, providers, configurations, j)
    ensures i == j
  {
  }

  /** The record built for a reference depends on the parsed reference
      alone: two raw strings that parse to the same reference give the same
      object. */
  lemma BuildDependsOnlyOnParsedReference<R>(n: Naming<R>, kind: Kind, a: string, b: string)
    requires n.parse(a) == n.parse(b)
    ensures Build(n, kind, a) == Build(n, kind, b)
  {
  }

  /** References with the same source (the same registry and repository,
      whatever their tag or digest) give objects of the same name, so they
      address the same object in the store. */
  lemma SameSourceSameName<R>(n: Naming<R>, kind: Kind, a: string, b: string)
    requires n.parse(a).Some? && n.parse(b).Some?
    requires n.packageSource(n.parse(a).value) == n.packageSource(n.parse(b).value)
    ensures Build(n, kind, a).Some? && Build(n, kind, b).Some?
    ensures Build(n, kind, a).value.name == Build(n, kind, b).value.name
  {
  }
}
