/** Which attached bindings are no longer required (pkg/dependenciesdistributor/dependencies_distributor.go). */
module OrphanBindings {
  import opened Wrappers
  import opened Policies

  datatype Dependency = Dependency(
    apiVersion: string, kind: string, namespace: string, name: string, labelSelector: Option<LabelSelector>)

  datatype AttachedBinding = AttachedBinding(name: string, resource: Key)

  /** What comes back when the resource template is fetched. */
  datatype Fetched = Labels(labels: map<LabelKey, string>) | NotFound | FetchFailed

  /** `generateDependencyKey`. */
  function GenerateDependencyKey(kind: string, apiVersion: string, namespace: string): string {
    if |namespace| == 0 then kind + "-" + apiVersion else kind + "-" + apiVersion + "-" + namespace
  }

  function DependencyKey(d: Dependency): string {
    GenerateDependencyKey(d.kind, d.apiVersion, d.namespace)
  }

  function ResourceKey(r: Key): string {
    GenerateDependencyKey(r.kind, r.apiVersion, r.namespace)
  }

  /** An API version is a version, or a group and a version after the last slash. */
  function Version(apiVersion: string): (v: string)
    ensures '/' !in v && |v| <= |apiVersion|
  {
    if apiVersion == "" || apiVersion[|apiVersion| - 1] == '/' then ""
    else Version(apiVersion[..|apiVersion| - 1]) + [apiVersion[|apiVersion| - 1]]
  }

  /** Names that keep the separators apart. */
  predicate Separable(kind: string, apiVersion: string, namespace: string) {
    '-' !in kind && '-' !in Version(apiVersion) && '/' !in namespace
  }

  function Suffix(namespace: string): string {
    if |namespace| == 0 then "" else "-" + namespace
  }

  /** Two strings joined by a dash are equal exactly if the dashes are the same, or the part between them belongs to
      the first half of one and to the second half of the other. */
  lemma DashedEqual(a: string, x: string, b: string, y: string)
    ensures a + "-" + x == b + "-" + y <==>
      || (a == b && x == y)
      || (exists m :: b == a + "-" + m && x == m + "-" + y)
      || (exists m :: a == b + "-" + m && y == m + "-" + x)
  {
    if |a| <= |b| {
      DashedEqualInOrder(a, x, b, y);
    } else {
      DashedEqualInOrder(b, y, a, x);
    }
    if m :| b == a + "-" + m && x == m + "-" + y {
      assert a + "-" + (m + "-" + y) == (a + "-" + m) + "-" + y;
    }
    if m :| a == b + "-" + m && y == m + "-" + x {
      assert b + "-" + (m + "-" + x) == (b + "-" + m) + "-" + x;
    }
  }

  lemma DashedEqualInOrder(a: string, x: string, b: string, y: string)
    requires |a| <= |b|
    ensures a + "-" + x == b + "-" + y ==>
      (a == b && x == y) || exists m :: b == a + "-" + m && x == m + "-" + y
  {
    var whole := a + "-" + x;
    if whole == b + "-" + y {
      assert a == whole[..|a|] && x == whole[|a| + 1..] && b == whole[..|b|] && y == whole[|b| + 1..];
      if |a| < |b| {
        var m := whole[|a| + 1..|b|];
        assert whole[|a|] == '-' && whole[|b|] == '-';
        assert b == a + "-" + m && x == m + "-" + y;
      }
    }
  }

  /** A version and namespace that are equal once joined: the same, or a dashed end of one version is the beginning
      of the other namespace. */
  predicate SameRest(apiVersion: string, namespace: string, v: string, n: string) {
    || (apiVersion == v && namespace == n)
    || (Dashed(v, apiVersion) && n == After(v, apiVersion) + Suffix(namespace) && n != "")
    || (Dashed(apiVersion, v) && namespace == After(apiVersion, v) + Suffix(n) && namespace != "")
  }

  /** `b` is `a`, a dash and something more. */
  predicate Dashed(a: string, b: string) {
    |a| < |b| && b[..|a|] == a && b[|a|] == '-'
  }

  function After(a: string, b: string): string
    requires Dashed(a, b)
  {
    b[|a| + 1..]
  }

  lemma DashedIs(a: string, b: string, m: string)
    ensures b == a + "-" + m <==> Dashed(a, b) && After(a, b) == m
  {
    if Dashed(a, b) {
      assert b == b[..|a|] + [b[|a|]] + b[|a| + 1..];
    }
  }

  lemma DashedHasDash(a: string, b: string)
    ensures Dashed(a, b) ==> '-' in b
  {
  }

  lemma SameRestExactly(apiVersion: string, namespace: string, v: string, n: string)
    ensures apiVersion + Suffix(namespace) == v + Suffix(n) <==> SameRest(apiVersion, namespace, v, n)
  {
    if namespace == "" && n == "" {
      assert apiVersion + "" == apiVersion && v + "" == v;
    } else if namespace == "" {
      assert apiVersion + "" == apiVersion && v + Suffix(n) == v + "-" + n;
      DashedIs(v, apiVersion, n);
      assert forall m: string {:trigger m + Suffix(namespace)} :: m + Suffix(namespace) == m;
    } else if n == "" {
      assert v + "" == v && apiVersion + Suffix(namespace) == apiVersion + "-" + namespace;
      DashedIs(apiVersion, v, namespace);
      assert forall m: string {:trigger m + Suffix(n)} :: m + Suffix(n) == m;
    } else {
      SameRestWithNamespaces(apiVersion, namespace, v, n);
    }
  }

  lemma SameRestWithNamespaces(apiVersion: string, namespace: string, v: string, n: string)
    requires namespace != "" && n != ""
    ensures apiVersion + Suffix(namespace) == v + Suffix(n) <==> SameRest(apiVersion, namespace, v, n)
  {
    assert apiVersion + Suffix(namespace) == apiVersion + "-" + namespace && v + Suffix(n) == v + "-" + n;
    DashedEqual(apiVersion, namespace, v, n);
    MiddleDash(apiVersion, namespace, v, n);
    MiddleDash(v, n, apiVersion, namespace);
    hide Suffix, Dashed, After;
  }

  /** The part between the dashes, named. */
  lemma MiddleDash(a: string, x: string, b: string, y: string)
    requires y != ""
    ensures (exists m :: b == a + "-" + m && x == m + "-" + y) <==> Dashed(a, b) && x == After(a, b) + Suffix(y)
  {
    if m :| b == a + "-" + m && x == m + "-" + y {
      DashedIs(a, b, m);
      assert m + "-" + y == m + Suffix(y);
    }
    if Dashed(a, b) && x == After(a, b) + Suffix(y) {
      DashedIs(a, b, After(a, b));
      assert x == After(a, b) + "-" + y;
    }
  }

  /** Exactly when two keys are equal: the kinds are the same and so is the rest, or one kind is the beginning of the
      other, up to a dash, and what follows in it stands at the beginning of the other API version. */
  lemma KeysEqualExactly(kind: string, apiVersion: string, namespace: string, k: string, v: string, n: string)
    ensures GenerateDependencyKey(kind, apiVersion, namespace) == GenerateDependencyKey(k, v, n) <==>
      || (kind == k && SameRest(apiVersion, namespace, v, n))
      || (Dashed(kind, k) && SameRest(apiVersion, namespace, After(kind, k) + "-" + v, n))
      || (Dashed(k, kind) && SameRest(After(k, kind) + "-" + apiVersion, namespace, v, n))
  {
    var x, y := apiVersion + Suffix(namespace), v + Suffix(n);
    KeyForm(kind, apiVersion, namespace);
    KeyForm(k, v, n);
    DashedEqual(kind, x, k, y);
    SameRestExactly(apiVersion, namespace, v, n);
    hide GenerateDependencyKey, SameRest, Suffix;
    if m :| k == kind + "-" + m && x == m + "-" + y {
      DashedIs(kind, k, m);
    }
    if m :| kind == k + "-" + m && y == m + "-" + x {
      DashedIs(k, kind, m);
    }
    if Dashed(kind, k) {
      var m := After(kind, k);
      DashedIs(kind, k, m);
      assert m + "-" + y == (m + "-" + v) + Suffix(n);
      SameRestExactly(apiVersion, namespace, m + "-" + v, n);
    }
    if Dashed(k, kind) {
      var m := After(k, kind);
      DashedIs(k, kind, m);
      assert m + "-" + x == (m + "-" + apiVersion) + Suffix(namespace);
      SameRestExactly(m + "-" + apiVersion, namespace, v, n);
    }
  }

  lemma KeyForm(kind: string, apiVersion: string, namespace: string)
    ensures GenerateDependencyKey(kind, apiVersion, namespace) == kind + "-" + (apiVersion + Suffix(namespace))
  {
    if namespace == "" {
      assert apiVersion + Suffix(namespace) == apiVersion;
    } else {
      assert kind + "-" + apiVersion + "-" + namespace == kind + "-" + (apiVersion + Suffix(namespace));
    }
  }

  /** So the keys of names that keep the separators apart are equal only for the same names. */
  lemma KeyIsInjective(kind: string, apiVersion: string, namespace: string, k: string, v: string, n: string)
    requires Separable(kind, apiVersion, namespace) && Separable(k, v, n)
    ensures GenerateDependencyKey(kind, apiVersion, namespace) == GenerateDependencyKey(k, v, n) <==>
      kind == k && apiVersion == v && namespace == n
  {
    KeysEqualExactly(kind, apiVersion, namespace, k, v, n);
    DashedHasDash(kind, k);
    DashedHasDash(k, kind);
    if Dashed(v, apiVersion) && n == After(v, apiVersion) + Suffix(namespace) {
      VersionKeepsDash(v, After(v, apiVersion));
      DashedIs(v, apiVersion, After(v, apiVersion));
    }
    if Dashed(apiVersion, v) && namespace == After(apiVersion, v) + Suffix(n) {
      VersionKeepsDash(apiVersion, After(apiVersion, v));
      DashedIs(apiVersion, v, After(apiVersion, v));
    }
  }

  lemma {:induction false} VersionKeepsDash(v: string, m: string)
    requires '/' !in m
    ensures '-' in Version(v + "-" + m)
  {
    if m == "" {
      assert (v + "-" + m)[..|v|] == v;
    } else {
      VersionKeepsDash(v, m[..|m| - 1]);
      assert (v + "-" + m)[..|v + "-" + m| - 1] == v + "-" + m[..|m| - 1];
    }
  }

  /** A dash that could belong to the kind or to the version makes keys collide. */
  lemma DashesCollide(x: string, y: string, z: string, namespace: string)
    ensures GenerateDependencyKey(x + "-" + y, z, namespace) == GenerateDependencyKey(x, y + "-" + z, namespace)
  {
    assert x + "-" + y + "-" + z == x + "-" + (y + "-" + z);
  }

  /** And so does one that could belong to the version or to the namespace. */
  lemma VersionDashCollides(kind: string, v: string, m: string, namespace: string)
    requires m != ""
    ensures GenerateDependencyKey(kind, v + "-" + m, namespace) == GenerateDependencyKey(kind, v, m + Suffix(namespace))
  {
    KeyForm(kind, v + "-" + m, namespace);
    KeyForm(kind, v, m + Suffix(namespace));
    assert (v + "-" + m) + Suffix(namespace) == v + "-" + (m + Suffix(namespace));
    hide GenerateDependencyKey;
  }

  datatype Check = Hit | Miss | Failed

  /** Whether one dependency of the right kind requires the resource: by name, or else by its labels. */
  function CheckDependency(d: Dependency, r: Key, fetched: Fetched): Check {
    if d.name != "" then
      if d.name == r.name then Hit else Miss
    else if d.labelSelector.Some? then
      if d.labelSelector.value.Unparsable? then Failed
      else
        match fetched
        case NotFound => Miss
        case FetchFailed => Failed
        case Labels(labels) => if d.labelSelector.value.Matches(labels) then Hit else Miss
    else Miss
  }

  /** When a dependency requires a resource and when it cannot be decided, read off its fields: a name decides alone,
      and without one a label selector that can be parsed, on the labels that are fetched. */
  lemma CheckMeans(d: Dependency, r: Key, fetched: Fetched)
    ensures CheckDependency(d, r, fetched) == Hit <==>
      || (d.name != "" && d.name == r.name)
      || (d.name == "" && d.labelSelector.Some? && d.labelSelector.value.Selector?
          && fetched.Labels? && d.labelSelector.value.Matches(fetched.labels))
    ensures CheckDependency(d, r, fetched) == Failed <==>
      d.name == "" && d.labelSelector.Some? && (d.labelSelector.value.Unparsable? || fetched.FetchFailed?)
  {
  }

  /** The first dependency that hits or fails decides. */
  function Verdict(dependencies: seq<Dependency>, r: Key, fetched: Fetched): Check
    decreases |dependencies|
  {
    if dependencies == [] then Miss
    else
      var check := CheckDependency(dependencies[0], r, fetched);
      if check == Miss then Verdict(dependencies[1..], r, fetched) else check
  }

  lemma {:induction false} VerdictMeans(dependencies: seq<Dependency>, r: Key, fetched: Fetched)
    ensures var v := Verdict(dependencies, r, fetched);
      && (v == Miss <==> forall d <- dependencies :: CheckDependency(d, r, fetched) == Miss)
      && (v != Miss ==> exists d <- dependencies :: CheckDependency(d, r, fetched) == v)
    decreases |dependencies|
  {
    if dependencies != [] {
      VerdictMeans(dependencies[1..], r, fetched);
      assert dependencies == [dependencies[0]] + dependencies[1..];
    }
  }

  /** A dependency decides exactly if none before it does. */
  lemma {:induction false} VerdictIsFirst(dependencies: seq<Dependency>, r: Key, fetched: Fetched, v: Check)
    requires v != Miss
    ensures Verdict(dependencies, r, fetched) == v <==>
      exists i :: 0 <= i < |dependencies| && CheckDependency(dependencies[i], r, fetched) == v
        && forall j :: 0 <= j < i ==> CheckDependency(dependencies[j], r, fetched) == Miss
    decreases |dependencies|
  {
    hide CheckDependency;
    if dependencies != [] {
      var rest := dependencies[1..];
      VerdictIsFirst(rest, r, fetched, v);
      if CheckDependency(dependencies[0], r, fetched) == Miss {
        if i :| 0 <= i < |rest| && CheckDependency(rest[i], r, fetched) == v
                && forall j :: 0 <= j < i ==> CheckDependency(rest[j], r, fetched) == Miss {
          assert dependencies[i + 1] == rest[i];
          assert forall j :: 0 < j <= i ==> dependencies[j] == rest[j - 1];
        }
        if i :| 0 <= i < |dependencies| && CheckDependency(dependencies[i], r, fetched) == v
                && forall j :: 0 <= j < i ==> CheckDependency(dependencies[j], r, fetched) == Miss {
          assert i > 0 && rest[i - 1] == dependencies[i];
          assert forall j :: 0 <= j < i - 1 ==> rest[j] == dependencies[j + 1];
        }
      }
    }
  }

  function WithKey(dependencies: seq<Dependency>, key: string): seq<Dependency> {
    if dependencies == [] then []
    else
      var rest, last := WithKey(dependencies[..|dependencies| - 1], key), dependencies[|dependencies| - 1];
      if DependencyKey(last) == key then rest + [last] else rest
  }

  lemma {:induction false} WithKeyMembers(dependencies: seq<Dependency>, key: string)
    ensures forall d :: d in WithKey(dependencies, key) <==> d in dependencies && DependencyKey(d) == key
  {
    if dependencies != [] {
      WithKeyMembers(dependencies[..|dependencies| - 1], key);
      assert dependencies == dependencies[..|dependencies| - 1] + [dependencies[|dependencies| - 1]];
    }
  }

  predicate InRange(indexes: seq<nat>, bound: nat) {
    forall j :: 0 <= j < |indexes| ==> indexes[j] < bound
  }

  function Picked(dependencies: seq<Dependency>, indexes: seq<nat>): seq<Dependency>
    requires InRange(indexes, |dependencies|)
  {
    seq(|indexes|, i requires 0 <= i < |indexes| => dependencies[indexes[i]])
  }

  ghost predicate IndexOf(dependenciesMaps: map<string, seq<nat>>, dependencies: seq<Dependency>, all: seq<Dependency>) {
    forall key: string ::
      && (key !in dependenciesMaps ==> WithKey(dependencies, key) == [])
      && (key in dependenciesMaps ==>
           && InRange(dependenciesMaps[key], |all|)
           && Picked(all, dependenciesMaps[key]) == WithKey(dependencies, key))
  }

  /** The index of the dependencies by their keys. */
  method IndexDependencies(dependencies: seq<Dependency>) returns (dependenciesMaps: map<string, seq<nat>>)
    ensures IndexOf(dependenciesMaps, dependencies, dependencies)
  {
    dependenciesMaps := map[];
    for index := 0 to |dependencies|
      invariant IndexOf(dependenciesMaps, dependencies[..index], dependencies)
    {
      assert dependencies[..index + 1][..index] == dependencies[..index];
      var key := DependencyKey(dependencies[index]);
      var indexes := if key in dependenciesMaps then dependenciesMaps[key] else [];
      ghost var before := Picked(dependencies, indexes);
      dependenciesMaps := dependenciesMaps[key := indexes + [index]];
      assert Picked(dependencies, indexes + [index]) == before + [dependencies[index]];
      hide DependencyKey;
    }
    assert dependencies[..|dependencies|] == dependencies;
  }

  /** `isOrphanAttachedBindings`: an orphan, required, or an error. */
  method IsOrphanAttachedBindings(
      dependencies: seq<Dependency>, dependencyIndexes: seq<nat>, resource: Key, fetched: Fetched)
    returns (isOrphan: Option<bool>)
    requires InRange(dependencyIndexes, |dependencies|)
    ensures isOrphan ==
      match Verdict(Picked(dependencies, dependencyIndexes), resource, fetched)
      case Miss => Some(true)
      case Hit => Some(false)
      case Failed => None
  {
    ghost var picked := Picked(dependencies, dependencyIndexes);
    for i := 0 to |dependencyIndexes|
      invariant Verdict(picked, resource, fetched) == Verdict(picked[i..], resource, fetched)
    {
      var dependency := dependencies[dependencyIndexes[i]];
      assert picked[i..][0] == dependency && picked[i..][1..] == picked[i + 1..];
      if |dependency.name| != 0 {
        if dependency.name == resource.name {
          return Some(false);
        }
      } else if dependency.labelSelector.Some? {
        var selector := dependency.labelSelector.value;
        if selector.Unparsable? {
          return None;
        }
        match fetched
        case NotFound =>
        case FetchFailed => return None;
        case Labels(labels) =>
          if selector.Matches(labels) {
            return Some(false);
          }
      }
    }
    return Some(true);
  }

  function VerdictOf(dependencies: seq<Dependency>, b: AttachedBinding, fetch: Key -> Fetched): Check {
    Verdict(WithKey(dependencies, ResourceKey(b.resource)), b.resource, fetch(b.resource))
  }

  function Orphans(
      dependencies: seq<Dependency>, attached: seq<AttachedBinding>, fetch: Key -> Fetched): seq<AttachedBinding>
  {
    if attached == [] then []
    else
      var rest, last := Orphans(dependencies, attached[..|attached| - 1], fetch), attached[|attached| - 1];
      if VerdictOf(dependencies, last, fetch) == Miss then rest + [last] else rest
  }

  /** The turn of the loop for one binding: whether it is an orphan, or an error. */
  method DecideOne(
      dependencies: seq<Dependency>, dependenciesMaps: map<string, seq<nat>>, attachedBinding: AttachedBinding,
      fetch: Key -> Fetched)
    returns (isOrphan: Option<bool>)
    requires IndexOf(dependenciesMaps, dependencies, dependencies)
    ensures isOrphan ==
      match VerdictOf(dependencies, attachedBinding, fetch)
      case Miss => Some(true)
      case Hit => Some(false)
      case Failed => None
  {
    var key := ResourceKey(attachedBinding.resource);
    hide CheckDependency, GenerateDependencyKey, ResourceKey;
    if key !in dependenciesMaps {
      assert WithKey(dependencies, key) == [];
      return Some(true);
    }
    isOrphan := IsOrphanAttachedBindings(
      dependencies, dependenciesMaps[key], attachedBinding.resource, fetch(attachedBinding.resource));
  }

  /** `findOrphanAttachedBindings`, after the attached bindings are listed. */
  method FindOrphanAttachedBindings(
      dependencies: seq<Dependency>, attachedBindings: seq<AttachedBinding>, fetch: Key -> Fetched)
    returns (orphans: Option<seq<AttachedBinding>>)
    ensures orphans.None? <==> exists b <- attachedBindings :: VerdictOf(dependencies, b, fetch) == Failed
    ensures orphans.Some? ==> orphans.value == Orphans(dependencies, attachedBindings, fetch)
  {
    var dependenciesMaps := IndexDependencies(dependencies);
    hide VerdictOf, IndexOf;
    var orphanAttachedBindings: seq<AttachedBinding> := [];
    for i := 0 to |attachedBindings|
      invariant orphanAttachedBindings == Orphans(dependencies, attachedBindings[..i], fetch)
      invariant forall b <- attachedBindings[..i] :: VerdictOf(dependencies, b, fetch) != Failed
    {
      var attachedBinding := attachedBindings[i];
      assert attachedBindings[..i + 1][..i] == attachedBindings[..i];
      var isOrphan := DecideOne(dependencies, dependenciesMaps, attachedBinding, fetch);
      if isOrphan.None? {
        assert attachedBinding in attachedBindings && VerdictOf(dependencies, attachedBinding, fetch) == Failed;
        return None;
      }
      if isOrphan.value {
        orphanAttachedBindings := orphanAttachedBindings + [attachedBinding];
      }
    }
    assert attachedBindings[..|attachedBindings|] == attachedBindings;
    return Some(orphanAttachedBindings);
  }

  /** A dependency on resources of this kind, API version and namespace. */
  predicate Concerns(d: Dependency, r: Key) {
    d.kind == r.kind && d.apiVersion == r.apiVersion && d.namespace == r.namespace
  }

  /** No dependency of the same kind, API version and namespace names or selects the resource. */
  ghost predicate NothingRequires(dependencies: seq<Dependency>, r: Key, fetched: Fetched) {
    forall d <- dependencies :: Concerns(d, r) ==> CheckDependency(d, r, fetched) == Miss
  }

  /** A dependency of other resources has the key of this one and does not miss it. */
  ghost predicate Mistaken(dependencies: seq<Dependency>, r: Key, fetched: Fetched) {
    exists d <- dependencies ::
      DependencyKey(d) == ResourceKey(r) && !Concerns(d, r) && CheckDependency(d, r, fetched) != Miss
  }

  /** Exactly when the decision on a binding is right, for any names: unless nothing requires its resource but a
      dependency of other resources with the same key is mistaken for one that does. */
  lemma VerdictRightExactly(dependencies: seq<Dependency>, b: AttachedBinding, fetch: Key -> Fetched)
    ensures (VerdictOf(dependencies, b, fetch) == Miss <==> NothingRequires(dependencies, b.resource, fetch(b.resource)))
      <==> !(NothingRequires(dependencies, b.resource, fetch(b.resource))
             && Mistaken(dependencies, b.resource, fetch(b.resource)))
    ensures VerdictOf(dependencies, b, fetch) == Miss ==> NothingRequires(dependencies, b.resource, fetch(b.resource))
  {
    var r := b.resource;
    WithKeyMembers(dependencies, ResourceKey(r));
    VerdictMeans(WithKey(dependencies, ResourceKey(r)), r, fetch(r));
    assert forall d <- dependencies :: Concerns(d, r) ==> DependencyKey(d) == ResourceKey(r);
    hide CheckDependency, Verdict, WithKey, GenerateDependencyKey;
  }

  /** Exactly which bindings are found, for any names, in the order they are listed: those whose resource nothing
      requires and no dependency of other resources is mistaken for. So nothing that is required is ever removed. */
  lemma {:induction false} OrphansExactly(
      dependencies: seq<Dependency>, attached: seq<AttachedBinding>, fetch: Key -> Fetched, b: AttachedBinding)
    ensures b in Orphans(dependencies, attached, fetch) <==>
      && b in attached && NothingRequires(dependencies, b.resource, fetch(b.resource))
      && !Mistaken(dependencies, b.resource, fetch(b.resource))
  {
    if attached != [] {
      var rest, last := attached[..|attached| - 1], attached[|attached| - 1];
      assert attached == rest + [last];
      OrphansExactly(dependencies, rest, fetch, b);
      VerdictRightExactly(dependencies, b, fetch);
      hide NothingRequires, Mistaken, VerdictOf;
    }
  }

  /** The same read off the dependencies. An orphan is required by none of its kind, version and namespace: each names
      another resource, or has no name and a selector that does not match the labels or for which there is no
      resource, or has neither. If no other dependency shares the key of the resource, exactly such are orphans. */
  lemma OrphansInPlainTerms(
      dependencies: seq<Dependency>, attached: seq<AttachedBinding>, fetch: Key -> Fetched, b: AttachedBinding)
    requires b in attached
    ensures var r := b.resource;
      var spared := forall d |
          d in dependencies && d.kind == r.kind && d.apiVersion == r.apiVersion && d.namespace == r.namespace ::
        if d.name != "" then d.name != r.name
        else if d.labelSelector.Some? then
          && d.labelSelector.value.Selector? && !fetch(r).FetchFailed?
          && (fetch(r).Labels? ==> !d.labelSelector.value.Matches(fetch(r).labels))
        else true;
      var alone := forall d <- dependencies ::
        DependencyKey(d) == ResourceKey(r) ==>
          d.kind == r.kind && d.apiVersion == r.apiVersion && d.namespace == r.namespace;
      && (b in Orphans(dependencies, attached, fetch) ==> spared)
      && (alone && spared ==> b in Orphans(dependencies, attached, fetch))
  {
    OrphansExactly(dependencies, attached, fetch, b);
    forall d
      ensures CheckDependency(d, b.resource, fetch(b.resource)) == Miss <==>
        if d.name != "" then d.name != b.resource.name
        else if d.labelSelector.Some? then
          && d.labelSelector.value.Selector? && !fetch(b.resource).FetchFailed?
          && (fetch(b.resource).Labels? ==> !d.labelSelector.value.Matches(fetch(b.resource).labels))
        else true
    {
      CheckMeans(d, b.resource, fetch(b.resource));
    }
    hide CheckDependency, Orphans, GenerateDependencyKey;
  }

  /** The exact reason for an error about a binding: of the dependencies that share the key of its resource, the first
      that does not miss it has no name and a selector that cannot be parsed, or the labels cannot be fetched. */
  lemma ErrorsInPlainTerms(dependencies: seq<Dependency>, b: AttachedBinding, fetch: Key -> Fetched)
    ensures VerdictOf(dependencies, b, fetch) == Failed <==>
      var r, own := b.resource, WithKey(dependencies, ResourceKey(b.resource));
      exists i :: 0 <= i < |own|
        && own[i].name == "" && own[i].labelSelector.Some?
        && (own[i].labelSelector.value.Unparsable? || fetch(r).FetchFailed?)
        && forall j :: 0 <= j < i ==>
          if own[j].name != "" then own[j].name != r.name
          else own[j].labelSelector.Some? ==>
            && own[j].labelSelector.value.Selector? && !fetch(r).FetchFailed?
            && (fetch(r).Labels? ==> !own[j].labelSelector.value.Matches(fetch(r).labels))
  {
    var r, own := b.resource, WithKey(dependencies, ResourceKey(b.resource));
    VerdictIsFirst(own, r, fetch(r), Failed);
    forall d
      ensures CheckDependency(d, r, fetch(r)) == Miss <==>
        if d.name != "" then d.name != r.name
        else d.labelSelector.Some? ==>
          && d.labelSelector.value.Selector? && !fetch(r).FetchFailed?
          && (fetch(r).Labels? ==> !d.labelSelector.value.Matches(fetch(r).labels))
      ensures CheckDependency(d, r, fetch(r)) == Failed <==>
        d.name == "" && d.labelSelector.Some? && (d.labelSelector.value.Unparsable? || fetch(r).FetchFailed?)
    {
      CheckMeans(d, r, fetch(r));
    }
    hide CheckDependency, Verdict, WithKey;
  }

  /** Each binding is found as often as it is attached. */
  lemma {:induction false} OrphansCounted(
      dependencies: seq<Dependency>, attached: seq<AttachedBinding>, fetch: Key -> Fetched, b: AttachedBinding)
    ensures multiset(Orphans(dependencies, attached, fetch))[b] ==
      if VerdictOf(dependencies, b, fetch) == Miss then multiset(attached)[b] else 0
  {
    if attached != [] {
      hide VerdictOf;
      var front, last := attached[..|attached| - 1], attached[|attached| - 1];
      OrphansCounted(dependencies, front, fetch, b);
      assert attached == front + [last];
      assert multiset(attached)[b] == multiset(front)[b] + if b == last then 1 else 0;
    }
  }

  ghost predicate AllSeparable(dependencies: seq<Dependency>, r: Key) {
    Separable(r.kind, r.apiVersion, r.namespace)
    && forall d <- dependencies :: Separable(d.kind, d.apiVersion, d.namespace)
  }

  /** With names that keep the separators apart no dependency is mistaken. */
  lemma SeparableIsNeverMistaken(dependencies: seq<Dependency>, r: Key, fetched: Fetched)
    requires AllSeparable(dependencies, r)
    ensures forall d <- dependencies :: DependencyKey(d) == ResourceKey(r) <==> Concerns(d, r)
    ensures !Mistaken(dependencies, r, fetched)
  {
    forall d | d in dependencies
      ensures DependencyKey(d) == ResourceKey(r) <==> Concerns(d, r)
    {
      KeyIsInjective(d.kind, d.apiVersion, d.namespace, r.kind, r.apiVersion, r.namespace);
    }
  }

  /** A binding that nothing requires is kept: a dependency on a dashed kind is mistaken for one on its resource. */
  lemma DashedKindKeepsOrphan(x: string, y: string, z: string, namespace: string, name: string, fetch: Key -> Fetched)
    requires name != ""
    ensures var d := Dependency(z, x + "-" + y, namespace, name, None);
      var b := AttachedBinding(name, Key(y + "-" + z, x, namespace, name));
      && NothingRequires([d], b.resource, fetch(b.resource))
      && Orphans([d], [b], fetch) == []
  {
    var d := Dependency(z, x + "-" + y, namespace, name, None);
    var b := AttachedBinding(name, Key(y + "-" + z, x, namespace, name));
    DashesCollide(x, y, z, namespace);
    assert |d.kind| > |b.resource.kind|;
    assert d in [d] && CheckDependency(d, b.resource, fetch(b.resource)) == Hit;
    VerdictRightExactly([d], b, fetch);
    assert [b][..0] == [] && Orphans([d], [], fetch) == [];
    hide VerdictOf;
    assert Orphans([d], [b], fetch) == if VerdictOf([d], b, fetch) == Miss then [] + [b] else [];
  }

  /** Whatever is decided, some dependency with the key of the resource decides it; without dashes it concerns the
      resource. */
  lemma VerdictIsSomeones(dependencies: seq<Dependency>, b: AttachedBinding, fetch: Key -> Fetched)
    requires VerdictOf(dependencies, b, fetch) != Miss
    ensures exists d <- dependencies ::
      && DependencyKey(d) == ResourceKey(b.resource)
      && CheckDependency(d, b.resource, fetch(b.resource)) == VerdictOf(dependencies, b, fetch)
      && (AllSeparable(dependencies, b.resource) ==> Concerns(d, b.resource))
  {
    if AllSeparable(dependencies, b.resource) {
      SeparableIsNeverMistaken(dependencies, b.resource, fetch(b.resource));
    }
    WithKeyMembers(dependencies, ResourceKey(b.resource));
    VerdictMeans(WithKey(dependencies, ResourceKey(b.resource)), b.resource, fetch(b.resource));
    hide CheckDependency, Verdict, WithKey, GenerateDependencyKey, AllSeparable;
  }
}
