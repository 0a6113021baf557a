/** Sealing scopes: how far a sealed secret may move, and the label that enforces it. */
module Scope {
  import opened Base
  import opened Types

  datatype SealingScope = StrictScope | NamespaceWideScope | ClusterWideScope

  function EncryptionLabel(namespace: string, name: string, scope: SealingScope): string {
    match scope
    case ClusterWideScope => ""
    case NamespaceWideScope => namespace
    case StrictScope => namespace + "/" + name
  }

  function SecretScope(annotations: map<string, string>): SealingScope {
    if IsTrue(annotations, CLUSTER_WIDE) then ClusterWideScope
    else if IsTrue(annotations, NAMESPACE_WIDE) then NamespaceWideScope
    else StrictScope
  }

  function LabelFor(meta: ObjectMeta): string {
    EncryptionLabel(meta.namespace, meta.name, SecretScope(meta.annotations))
  }

  predicate SaysTrue(annotations: map<string, string>, k: string) {
    k in annotations && annotations[k] == "true"
  }

  /** What the annotations say: cluster-wide outdoes namespace-wide, and anything but "true" says nothing. */
  lemma ScopeMeans(annotations: map<string, string>)
    ensures SecretScope(annotations).ClusterWideScope? <==> SaysTrue(annotations, CLUSTER_WIDE)
    ensures SecretScope(annotations).NamespaceWideScope? <==>
              SaysTrue(annotations, NAMESPACE_WIDE) && !SaysTrue(annotations, CLUSTER_WIDE)
  {
  }

  /** A strict label is the namespace, a slash and the name; a namespace-wide one the namespace; else it is empty. */
  lemma LabelLayout(meta: ObjectMeta)
    ensures var l, scope := LabelFor(meta), SecretScope(meta.annotations);
      match scope
      case ClusterWideScope => l == ""
      case NamespaceWideScope => l == meta.namespace
      case StrictScope =>
        && |l| == |meta.namespace| + 1 + |meta.name| && l[..|meta.namespace|] == meta.namespace
        && l[|meta.namespace|] == '/' && l[|meta.namespace| + 1..] == meta.name
  {
    var l := meta.namespace + "/" + meta.name;
    assert l[|meta.namespace| + 1..] == meta.name;
  }

  /** The annotations `a` rewritten to express `scope`. */
  function WithScope(a: map<string, string>, scope: SealingScope): map<string, string> {
    var rest := a - {NAMESPACE_WIDE, CLUSTER_WIDE};
    match scope
    case StrictScope => rest
    case NamespaceWideScope => rest[NAMESPACE_WIDE := "true"]
    case ClusterWideScope => rest[CLUSTER_WIDE := "true"]
  }

  method UpdateScopeAnnotations(annotations: Option<map<string, string>>, scope: SealingScope)
    returns (r: map<string, string>)
    ensures r == WithScope(if annotations.Some? then annotations.value else map[], scope)
    ensures SecretScope(r) == scope
  {
    var anno := map[];
    if annotations.Some? {
      anno := annotations.value;
    }
    anno := anno - {NAMESPACE_WIDE};
    anno := anno - {CLUSTER_WIDE};
    if scope == NamespaceWideScope {
      anno := anno[NAMESPACE_WIDE := "true"];
    }
    if scope == ClusterWideScope {
      anno := anno[CLUSTER_WIDE := "true"];
    }
    return anno;
  }

  const LAST_APPLIED := [LAST_APPLIED_KUBECTL, LAST_APPLIED_KUBECFG]

  function Stripped(annotations: map<string, string>): map<string, string> {
    annotations - {LAST_APPLIED_KUBECTL, LAST_APPLIED_KUBECFG}
  }

  method StripLastAppliedAnnotations(annotations: map<string, string>) returns (r: map<string, string>)
    ensures r == Stripped(annotations)
    ensures forall k :: Lookup(r, k) ==
              if || k == "kubectl.kubernetes.io/last-applied-configuration"
                 || k == "kubecfg.ksonnet.io/last-applied-configuration"
              then None else Lookup(annotations, k)
  {
    r := annotations;
    var i := 0;
    while i < |LAST_APPLIED|
      invariant 0 <= i <= |LAST_APPLIED|
      invariant r == annotations - set j | 0 <= j < i :: LAST_APPLIED[j]
    {
      r := r - {LAST_APPLIED[i]};
      i := i + 1;
    }
    assert (set j | 0 <= j < 2 :: LAST_APPLIED[j]) == {LAST_APPLIED[0], LAST_APPLIED[1]};
  }

  /** The scope written is the scope read, and no other annotation is touched. */
  lemma ScopeWrittenIsScopeRead(a: map<string, string>, scope: SealingScope)
    ensures SecretScope(WithScope(a, scope)) == scope
    ensures forall k :: k != NAMESPACE_WIDE && k != CLUSTER_WIDE ==> Lookup(WithScope(a, scope), k) == Lookup(a, k)
    ensures WithScope(WithScope(a, scope), scope) == WithScope(a, scope)
  {
  }

  lemma StrippingKeepsScope(a: map<string, string>)
    ensures SecretScope(Stripped(a)) == SecretScope(a)
  {
  }

  /** Overlaying annotations of the same scope keeps the scope. */
  lemma OverlayKeepsScope(a: map<string, string>, b: map<string, string>)
    requires SecretScope(a) == SecretScope(b)
    ensures SecretScope(a + b) == SecretScope(a)
  {
  }

  /** What a scope pins: the namespace, the name, both or neither. */
  ghost predicate SamePlace(
    ns: string, name: string, scope: SealingScope, ns': string, name': string, scope': SealingScope)
  {
    scope == scope' &&
    match scope
    case ClusterWideScope => true
    case NamespaceWideScope => ns == ns'
    case StrictScope => ns == ns' && name == name'
  }

  /** The one collision left: a namespace-wide label of the empty namespace looks cluster-wide. */
  ghost predicate EmptyNamespaceClash(ns: string, scope: SealingScope, scope': SealingScope) {
    scope == NamespaceWideScope && ns == "" && scope' == ClusterWideScope
  }

  lemma SlashShape(a: string, x: string)
    requires '/' !in a
    ensures var s := a + "/" + x;
      (forall i :: 0 <= i < |a| ==> s[i] != '/') && s[|a|] == '/' && s[..|a|] == a && s[|a| + 1..] == x
  {
  }

  lemma FirstSlashSplits(a: string, x: string, b: string, y: string)
    requires '/' !in a && '/' !in b && a + "/" + x == b + "/" + y
    ensures a == b && x == y
  {
    SlashShape(a, x);
    SlashShape(b, y);
    assert |a| == |b|;
  }

  /** Labels of slash-free namespaces agree exactly when the places agree, up to the one clash. */
  lemma LabelsSeparate(ns: string, name: string, scope: SealingScope, ns': string, name': string, scope': SealingScope)
    requires '/' !in ns && '/' !in ns'
    ensures EncryptionLabel(ns, name, scope) == EncryptionLabel(ns', name', scope') <==>
            || SamePlace(ns, name, scope, ns', name', scope')
            || EmptyNamespaceClash(ns, scope, scope')
            || EmptyNamespaceClash(ns', scope', scope)
  {
    var l, l' := EncryptionLabel(ns, name, scope), EncryptionLabel(ns', name', scope');
    assert scope.StrictScope? ==> l[|ns|] == '/';
    assert scope'.StrictScope? ==> l'[|ns'|] == '/';
    if l == l' && scope.StrictScope? && scope'.StrictScope? {
      FirstSlashSplits(ns, name, ns', name');
    }
  }

  /** Without the restriction on namespaces two different places can share a label. */
  lemma SlashInNamespaceCollides()
    ensures EncryptionLabel("a/b", "x", NamespaceWideScope) == EncryptionLabel("a", "b", StrictScope)
    ensures !SamePlace("a/b", "x", NamespaceWideScope, "a", "b", StrictScope)
  {
  }
}
