/** `kubeseal`: sealing a batch of Secrets, and merging one into an existing sealed secret. */
module Merge {
  import opened Base
  import opened Types
  import opened Crypto
  import opened Scope
  import opened Sealing
  import opened SealingLaws

  datatype CliError = NoSecrets | EmptyData | MissingName | NamespaceMismatch | NotSealed(cause: SealError)

  /** The command line: wanted scope, overrides (empty when not given) and the client's namespace. */
  datatype Options = Options(
    scope: SealingScope,
    allowEmptyData: bool,
    overrideName: string,
    overrideNamespace: string,
    clientNamespace: string,
    namespaceSet: bool)

  function Override(given: string, own: string): string {
    if given != "" then given else own
  }

  /** The scope a Secret ends up with; the default scope on the command line leaves its own. */
  function FinalScope(o: Options, secret: Secret): SealingScope {
    if o.scope != StrictScope then o.scope else SecretScope(secret.meta.annotations)
  }

  function FinalNamespace(o: Options, secret: Secret): string {
    var ns := Override(o.overrideNamespace, secret.meta.namespace);
    if ns == "" && FinalScope(o, secret) != ClusterWideScope then o.clientNamespace else ns
  }

  predicate Mismatch(o: Options, secret: Secret) {
    var ns := Override(o.overrideNamespace, secret.meta.namespace);
    FinalScope(o, secret) != ClusterWideScope && o.namespaceSet && ns != "" && ns != o.clientNamespace
  }

  /** `secret` as it is handed to the sealing: renamed, placed, scoped, server-side identity removed. */
  function Prepared(o: Options, secret: Secret): Secret {
    secret.(meta := secret.meta.(
      name := Override(o.overrideName, secret.meta.name),
      namespace := FinalNamespace(o, secret),
      uid := "",
      generation := 0,
      annotations :=
        if o.scope != StrictScope then WithScope(secret.meta.annotations, o.scope) else secret.meta.annotations))
  }

  function Refusal(o: Options, secret: Secret): Option<CliError> {
    if secret.data == map[] && secret.stringData == map[] && !o.allowEmptyData then Some(EmptyData)
    else if Override(o.overrideName, secret.meta.name) == "" then Some(MissingName)
    else if Mismatch(o, secret) then Some(NamespaceMismatch)
    else None
  }

  /** The reasons for a refusal, in the order in which they are looked for. */
  lemma RefusalMeans(o: Options, secret: Secret)
    ensures var empty := secret.data == map[] && secret.stringData == map[] && !o.allowEmptyData;
      var nameless := o.overrideName == "" && secret.meta.name == "";
      var ns := if o.overrideNamespace != "" then o.overrideNamespace else secret.meta.namespace;
      var clusterWide := o.scope.ClusterWideScope?
                         || (o.scope.StrictScope? && SecretScope(secret.meta.annotations).ClusterWideScope?);
      var mismatch := !clusterWide && o.namespaceSet && ns != "" && ns != o.clientNamespace;
      && (Refusal(o, secret) == Some(EmptyData) <==> empty)
      && (Refusal(o, secret) == Some(MissingName) <==> !empty && nameless)
      && (Refusal(o, secret) == Some(NamespaceMismatch) <==> !empty && !nameless && mismatch)
      && (Refusal(o, secret) == None <==> !empty && !nameless && !mismatch)
  {
  }

  /** What the sealing is handed: the overrides, the client's namespace where one is missing, and the wanted scope. */
  lemma PreparedMeans(o: Options, secret: Secret)
    ensures var p := Prepared(o, secret);
      && p.data == secret.data && p.stringData == secret.stringData
      && p.secretType == secret.secretType && p.immutable == secret.immutable
      && p.meta.name == (if o.overrideName != "" then o.overrideName else secret.meta.name)
      && p.meta.labels == secret.meta.labels && p.meta.ownerReferences == secret.meta.ownerReferences
      && p.meta.uid == "" && p.meta.generation == 0
      && (forall k :: k !in {CLUSTER_WIDE, NAMESPACE_WIDE} ==>
            Lookup(p.meta.annotations, k) == Lookup(secret.meta.annotations, k))
      && (if o.scope.StrictScope? then p.meta.annotations == secret.meta.annotations
          else SecretScope(p.meta.annotations) == o.scope)
      && (if o.overrideNamespace != "" then p.meta.namespace == o.overrideNamespace
          else if secret.meta.namespace != "" || SecretScope(p.meta.annotations).ClusterWideScope?
          then p.meta.namespace == secret.meta.namespace
          else p.meta.namespace == o.clientNamespace)
  {
  }

  method Prepare(o: Options, input: Secret) returns (r: Result<Secret, CliError>)
    ensures r == match Refusal(o, input)
                 case Some(e) => Err(e)
                 case None => Ok(Prepared(o, input))
  {
    var secret := input;
    if |secret.data| == 0 && |secret.stringData| == 0 && !o.allowEmptyData {
      return Err(EmptyData);
    }
    if o.overrideName != "" {
      secret := secret.(meta := secret.meta.(name := o.overrideName));
    }
    if secret.meta.name == "" {
      return Err(MissingName);
    }
    if o.overrideNamespace != "" {
      secret := secret.(meta := secret.meta.(namespace := o.overrideNamespace));
    }
    if o.scope != StrictScope {
      var annotations := UpdateScopeAnnotations(Some(secret.meta.annotations), o.scope);
      secret := secret.(meta := secret.meta.(annotations := annotations));
    }
    if SecretScope(secret.meta.annotations) != ClusterWideScope {
      if o.namespaceSet && secret.meta.namespace != "" && secret.meta.namespace != o.clientNamespace {
        return Err(NamespaceMismatch);
      }
      if secret.meta.namespace == "" {
        secret := secret.(meta := secret.meta.(namespace := o.clientNamespace));
      }
    }
    secret := secret.(meta := secret.meta.(uid := ""));
    secret := secret.(meta := secret.meta.(generation := 0));
    return Ok(secret);
  }

  /** One turn of the sealing loop. */
  ghost predicate SealedAs(c: Primitives, pubKey: PublicKey, o: Options, secret: Secret, ss: SealedSecret) {
    Refusal(o, secret).None? && SealedFrom(c, pubKey, Prepared(o, secret), ss)
  }

  method PrepareAndSeal(c: Primitives, rnd: Random, pubKey: PublicKey, o: Options, input: Secret)
    returns (r: Result<SealedSecret, CliError>)
    ensures r.Ok? ==> SealedAs(c, pubKey, o, input, r.value)
    ensures Refusal(o, input).Some? ==> r.Err?
    ensures r.Err? ==> IsCause(c, rnd, pubKey, o, input, r.error)
  {
    var secret := Prepare(o, input);
    if secret.Err? {
      return Err(secret.error);
    }
    var sealed, draws := NewSealedSecret(c, rnd, pubKey, secret.value);
    if sealed.Err? {
      return Err(NotSealed(sealed.error));
    }
    return Ok(sealed.value);
  }

  /** `sealed` holds what the first Secrets of the batch were sealed as. */
  ghost predicate SealedSoFar(
    c: Primitives, pubKey: PublicKey, o: Options, secrets: seq<Secret>, sealed: seq<SealedSecret>)
  {
    |sealed| <= |secrets| && forall i :: 0 <= i < |sealed| ==> SealedAs(c, pubKey, o, secrets[i], sealed[i])
  }

  lemma OneMoreSealed(
    c: Primitives, pubKey: PublicKey, o: Options, secrets: seq<Secret>, sealed: seq<SealedSecret>, ss: SealedSecret)
    requires SealedSoFar(c, pubKey, o, secrets, sealed) && |sealed| < |secrets|
    requires SealedAs(c, pubKey, o, secrets[|sealed|], ss)
    ensures SealedSoFar(c, pubKey, o, secrets, sealed + [ss])
  {
    var longer := sealed + [ss];
    forall i | 0 <= i < |longer| ensures SealedAs(c, pubKey, o, secrets[i], longer[i]) {
      assert longer[i] == if i < |sealed| then sealed[i] else ss;
    }
  }

  /** Nothing but the input stands in the way of sealing it. */
  ghost predicate CanBeSealed(c: Primitives, rnd: Random, pubKey: PublicKey, o: Options, secret: Secret) {
    Namespaced(Prepared(o, secret)) && NeverFails(c, rnd, pubKey, LabelFor(Prepared(o, secret).meta))
  }

  /** Why a Secret was not sealed: its refusal, or a failure of the sealing itself. */
  ghost predicate IsCause(
    c: Primitives, rnd: Random, pubKey: PublicKey, o: Options, secret: Secret, error: CliError)
  {
    match Refusal(o, secret)
    case Some(e) => error == e
    case None => error.NotSealed? && !CanBeSealed(c, rnd, pubKey, o, secret)
  }

  /** Seals the Secrets in turn into `out`; `rnds(i)` is the randomness left for the i-th. */
  method SealAll(c: Primitives, rnds: nat -> Random, pubKey: PublicKey, o: Options, secrets: seq<Secret>)
    returns (out: seq<SealedSecret>, error: Option<CliError>)
    ensures SealedSoFar(c, pubKey, o, secrets, out)
    ensures error.None? ==> secrets != [] && |out| == |secrets|
    ensures error == Some(NoSecrets) <==> secrets == []
    ensures error.Some? && secrets != [] ==>
              |out| < |secrets| && IsCause(c, rnds(|out|), pubKey, o, secrets[|out|], error.value)
  {
    out, error := [], None;
    if |secrets| == 0 {
      return [], Some(NoSecrets);
    }
    for i := 0 to |secrets|
      invariant error.None? && |out| == i && SealedSoFar(c, pubKey, o, secrets, out)
    {
      var ss := PrepareAndSeal(c, rnds(i), pubKey, o, secrets[i]);
      if ss.Err? {
        return out, Some(ss.error);
      }
      OneMoreSealed(c, pubKey, o, secrets, out, ss.value);
      out := out + [ss.value];
    }
  }

  /**
   * From the command line to the cluster and back: the Secret that unseals has the input's items, type and
   * immutability, the overridden name and namespace, and the scope asked for.
   */
  lemma SealedOnTheCommandLine(
    c: Primitives, t: TemplateEngine, pubKey: PublicKey, o: Options, input: Secret, ss: SealedSecret,
    deployed: SealedSecret, keys: KeyRing, r: Result<Secret, UnsealError>)
    requires Sound(c) && SealedAs(c, pubKey, o, input, ss) && DeployedAs(ss, deployed)
    requires HoldsKeyFor(keys, pubKey) && Unsealed(c, t, deployed, keys, r)
    ensures r.Ok? && r.value.data == input.data + input.stringData
    ensures r.value.secretType == input.secretType && r.value.immutable == input.immutable
    ensures r.value.meta.name == Override(o.overrideName, input.meta.name) && r.value.meta.name != ""
    ensures r.value.meta.namespace == FinalNamespace(o, input)
    ensures r.value.meta.uid == "" && r.value.meta.generation == 0
    ensures SecretScope(r.value.meta.annotations) == FinalScope(o, input)
    ensures FinalScope(o, input) != ClusterWideScope && o.namespaceSet ==>
              r.value.meta.namespace == o.clientNamespace
  {
    RoundTrip(c, t, pubKey, Prepared(o, input), ss, deployed, keys, r);
    PreparedScope(o, input);
  }

  // ---- Merging ------------------------------------------------------------------------------

  /** Which maps of the decoded original exist; Go panics on a write into one that does not. */
  datatype Present = Present(items: bool, annotations: bool, labels: bool, templates: bool)

  predicate WritesNil(p: Present, update: SealedSecret) {
    || (!p.items && update.spec.encryptedData != map[])
    || (!p.annotations && update.spec.template.meta.annotations != map[])
    || (!p.labels && update.spec.template.meta.labels != map[])
    || (!p.templates && update.spec.template.data != map[])
  }

  function Merged(orig: SealedSecret, update: SealedSecret): SealedSecret {
    var template := orig.spec.template;
    var from := update.spec.template;
    orig.(spec := orig.spec.(
      encryptedData := orig.spec.encryptedData + update.spec.encryptedData,
      template := template.(
        data := template.data + from.data,
        meta := template.meta.(
          annotations := template.meta.annotations + from.meta.annotations,
          labels := template.meta.labels + from.meta.labels))))
  }

  /** A merge is the original with the update's entries put over its own in four maps, and otherwise untouched. */
  lemma MergedMeans(orig: SealedSecret, update: SealedSecret)
    ensures var r, t, from := Merged(orig, update), orig.spec.template, update.spec.template;
      var t' := r.spec.template;
      && Overlays(r.spec.encryptedData, orig.spec.encryptedData, update.spec.encryptedData)
      && Overlays(t'.data, t.data, from.data)
      && Overlays(t'.meta.annotations, t.meta.annotations, from.meta.annotations)
      && Overlays(t'.meta.labels, t.meta.labels, from.meta.labels)
      && r == orig.(spec := orig.spec.(encryptedData := r.spec.encryptedData, template := t'))
      && t' == t.(data := t'.data, meta := t.meta.(annotations := t'.meta.annotations, labels := t'.meta.labels))
  {
  }

  /** One range loop writing every entry of `from` into `into`; `None` is the panic on a nil map. */
  method Overwrite(into: map<string, string>, present: bool, from: map<string, string>)
    returns (r: Option<map<string, string>>)
    ensures r.None? <==> !present && from != map[]
    ensures r.Some? ==> r.value == into + from
  {
    var target := into;
    var remaining := from.Keys;
    VisitAllAndNone(into, from);
    while remaining != {}
      invariant remaining <= from.Keys
      invariant target == into + (from - remaining)
      invariant !present ==> remaining == from.Keys
      decreases |remaining|
    {
      var k :| k in remaining;
      if !present {
        return None;
      }
      VisitOne(into, from, remaining, k);
      target := target[k := from[k]];
      remaining := remaining - {k};
    }
    return Some(target);
  }

  method MergeInto(orig: SealedSecret, present: Present, update: SealedSecret) returns (r: Option<SealedSecret>)
    ensures r.None? <==> WritesNil(present, update)
    ensures r.None? <==>
            || (!present.items && update.spec.encryptedData.Keys != {})
            || (!present.annotations && update.spec.template.meta.annotations.Keys != {})
            || (!present.labels && update.spec.template.meta.labels.Keys != {})
            || (!present.templates && update.spec.template.data.Keys != {})
    ensures r.Some? ==> r.value == Merged(orig, update)
  {
    var s := orig;
    var items := Overwrite(s.spec.encryptedData, present.items, update.spec.encryptedData);
    if items.None? {
      return None;
    }
    s := s.(spec := s.spec.(encryptedData := items.value));
    var template := s.spec.template;
    var annotations := Overwrite(template.meta.annotations, present.annotations, update.spec.template.meta.annotations);
    if annotations.None? {
      return None;
    }
    template := template.(meta := template.meta.(annotations := annotations.value));
    var labels := Overwrite(template.meta.labels, present.labels, update.spec.template.meta.labels);
    if labels.None? {
      return None;
    }
    template := template.(meta := template.meta.(labels := labels.value));
    var data := Overwrite(template.data, present.templates, update.spec.template.data);
    if data.None? {
      return None;
    }
    template := template.(data := data.value);
    return Some(s.(spec := s.spec.(template := template)));
  }

  datatype MergeResult = Written(ss: SealedSecret) | Rejected(error: CliError) | Panicked

  /** The input, sealed under the original's name and namespace. */
  ghost predicate Updates(
    c: Primitives, pubKey: PublicKey, o: Options, orig: SealedSecret, input: Secret, update: SealedSecret)
  {
    SealedFrom(c, pubKey, Prepared(Onto(o, orig), input), update)
  }

  ghost predicate MergedFrom(
    c: Primitives, pubKey: PublicKey, o: Options, orig: SealedSecret, input: Secret, ss: SealedSecret)
  {
    exists update :: Updates(c, pubKey, o, orig, input, update) && ss == Merged(orig, update)
  }

  /** With one input Secret; it takes name and namespace from the original. */
  method SealMergingInto(
    c: Primitives, rnds: nat -> Random, pubKey: PublicKey, o: Options,
    orig: SealedSecret, present: Present, input: Option<Secret>)
    returns (r: MergeResult)
    ensures r.Written? ==> input.Some? && MergedFrom(c, pubKey, o, orig, input.value, r.ss)
    ensures r.Panicked? ==> input.Some? && exists update ::
              Updates(c, pubKey, o, orig, input.value, update) && WritesNil(present, update)
    ensures input.Some? && Refusal(Onto(o, orig), input.value).Some? ==> r.Rejected?
    ensures r.Rejected? && input.Some? ==> IsCause(c, rnds(0), pubKey, Onto(o, orig), input.value, r.error)
    ensures r.Rejected? && r.error == NoSecrets <==> input.None?
  {
    var opts := o.(overrideName := orig.meta.name, overrideNamespace := orig.meta.namespace);
    var out, error := SealAll(c, rnds, pubKey, opts, if input.Some? then [input.value] else []);
    if error.Some? {
      return Rejected(error.value);
    }
    assert Updates(c, pubKey, o, orig, input.value, out[0]);
    var merged := MergeInto(orig, present, out[0]);
    if merged.None? {
      return Panicked;
    }
    return Written(merged.value);
  }

  function Onto(o: Options, orig: SealedSecret): Options {
    o.(overrideName := orig.meta.name, overrideNamespace := orig.meta.namespace)
  }

  // ---- What a merge keeps --------------------------------------------------------------------

  lemma PreparedScope(o: Options, secret: Secret)
    ensures SecretScope(Prepared(o, secret).meta.annotations) == FinalScope(o, secret)
  {
  }

  /** Into a named original of a slash-free namespace, the labels match exactly when the scopes do. */
  lemma MergeLabels(o: Options, orig: SealedSecret, secret: Secret)
    requires orig.meta.name != "" && '/' !in orig.meta.namespace
    requires orig.meta.namespace != ""
             || SecretScope(orig.meta.annotations) == FinalScope(o, secret) == ClusterWideScope
    ensures LabelFor(Prepared(Onto(o, orig), secret).meta) == LabelFor(orig.meta)
       <==> FinalScope(o, secret) == SecretScope(orig.meta.annotations)
  {
  }

  /** The merge holds the original's items overridden by the new ones, under the union of the keys. */
  lemma MergeHolds(
    c: Primitives, pubKey: PublicKey, keys: KeyRing, more: KeyRing, orig: SealedSecret, plain: map<string, Bytes>,
    secret: Secret, update: SealedSecret)
    requires Holds(c, keys, LabelFor(orig.meta), plain, orig.spec.encryptedData)
    requires SealedFrom(c, pubKey, secret, update) && LabelFor(secret.meta) == LabelFor(orig.meta)
    requires forall f :: f in keys ==> HoldsKeyFor(more, keys[f].publicKey)
    requires HoldsKeyFor(more, pubKey)
    ensures Holds(c, more, LabelFor(orig.meta), plain + Items(secret), Merged(orig, update).spec.encryptedData)
  {
    var lbl := LabelFor(orig.meta);
    HoldsIsMonotone(c, keys, more, lbl, plain, orig.spec.encryptedData);
    SealedIsHeld(c, pubKey, more, lbl, Items(secret), update.spec.encryptedData);
    OverlayHolds(c, more, lbl, plain, orig.spec.encryptedData, Items(secret), update.spec.encryptedData);
  }

  lemma MergeLeavesTemplates(
    c: Primitives, pubKey: PublicKey, orig: SealedSecret, secret: Secret, update: SealedSecret)
    requires SealedFrom(c, pubKey, secret, update)
    ensures Merged(orig, update).spec.template.data == orig.spec.template.data
    ensures Merged(orig, update).spec.data == orig.spec.data && Merged(orig, update).meta == orig.meta
  {
  }

  lemma HeldMergeUnseals(
    c: Primitives, t: TemplateEngine, keys: KeyRing, merged: SealedSecret, plain: map<string, Bytes>,
    r: Result<Secret, UnsealError>)
    requires Sound(c) && merged.spec.data == None
    requires Holds(c, keys, LabelFor(merged.meta), plain, merged.spec.encryptedData)
    requires Unsealed(c, t, merged, keys, r)
    ensures r == Opened(t, merged, plain)
    ensures merged.spec.template.data == map[] ==> r.Ok? && r.value.data == plain
  {
    UnsealHeld(c, t, merged, keys, plain, r);
    if merged.spec.template.data == map[] {
      OpenedWithoutTemplates(t, merged, plain);
    }
  }

  /** So it unseals to them, in every order, with the original's templates rendered from the merged items. */
  lemma MergePreservesDecryptability(
    c: Primitives, t: TemplateEngine, pubKey: PublicKey, keys: KeyRing, more: KeyRing, orig: SealedSecret,
    plain: map<string, Bytes>, secret: Secret, update: SealedSecret, r: Result<Secret, UnsealError>)
    requires Sound(c) && orig.spec.data == None
    requires Holds(c, keys, LabelFor(orig.meta), plain, orig.spec.encryptedData)
    requires SealedFrom(c, pubKey, secret, update) && LabelFor(secret.meta) == LabelFor(orig.meta)
    requires forall f :: f in keys ==> HoldsKeyFor(more, keys[f].publicKey)
    requires HoldsKeyFor(more, pubKey) && Unsealed(c, t, Merged(orig, update), more, r)
    ensures r == Opened(t, Merged(orig, update), plain + Items(secret))
    ensures Merged(orig, update).spec.template.data == orig.spec.template.data
    ensures orig.spec.template.data == map[] ==> r.Ok? && r.value.data == plain + Items(secret)
  {
    MergeHolds(c, pubKey, keys, more, orig, plain, secret, update);
    MergeLeavesTemplates(c, pubKey, orig, secret, update);
    HeldMergeUnseals(c, t, more, Merged(orig, update), plain + Items(secret), r);
  }

  /** And matching labels are necessary: otherwise no new item opens with any keys at all. */
  lemma MergeNeedsMatchingLabels(
    c: Primitives, t: TemplateEngine, pubKey: PublicKey, keys: KeyRing, orig: SealedSecret,
    secret: Secret, update: SealedSecret, r: Result<Secret, UnsealError>)
    requires Sound(c) && orig.spec.data == None && SealedFrom(c, pubKey, secret, update)
    requires LabelFor(secret.meta) != LabelFor(orig.meta) && Items(secret) != map[]
    requires Unsealed(c, t, Merged(orig, update), keys, r)
    ensures r.Err? && r.error.FailedItems? && forall k :: k in Items(secret) ==> ItemFailure(k) in r.error.failures
  {
    var merged := Merged(orig, update);
    var lbl := LabelFor(orig.meta);
    var o :| AreOutcomes(c, keys, lbl, merged.spec.encryptedData, o) && r == Assemble(t, merged, o);
    forall k | k in Items(secret) ensures ItemFailure(k) in ItemFailures(o) {
      SealedItemOutcome(
        c, pubKey, LabelFor(secret.meta), Items(secret)[k], update.spec.encryptedData[k], keys, lbl, o[k]);
    }
    var k :| k in Items(secret);
    assert ItemFailures(o) != {};
  }

  lemma UpdateUnseals(
    c: Primitives, t: TemplateEngine, pubKey: PublicKey, keys: KeyRing, more: KeyRing, o: Options, orig: SealedSecret,
    plain: map<string, Bytes>, input: Secret, update: SealedSecret, r: Result<Secret, UnsealError>)
    requires Sound(c) && Updates(c, pubKey, o, orig, input, update) && Unsealed(c, t, Merged(orig, update), more, r)
    requires orig.spec.data == None && Holds(c, keys, LabelFor(orig.meta), plain, orig.spec.encryptedData)
    requires (forall f :: f in keys ==> HoldsKeyFor(more, keys[f].publicKey)) && HoldsKeyFor(more, pubKey)
    requires LabelFor(Prepared(Onto(o, orig), input).meta) == LabelFor(orig.meta)
    ensures r == Opened(t, Merged(orig, update), plain + Items(input))
    ensures Merged(orig, update).spec.template.data == orig.spec.template.data
    ensures orig.spec.template.data == map[] ==> r.Ok? && r.value.data == plain + Items(input)
  {
    var secret := Prepared(Onto(o, orig), input);
    assert Items(secret) == Items(input);
    MergePreservesDecryptability(c, t, pubKey, keys, more, orig, plain, secret, update, r);
  }

  lemma UpdateFails(
    c: Primitives, t: TemplateEngine, pubKey: PublicKey, keys: KeyRing, o: Options, orig: SealedSecret,
    input: Secret, update: SealedSecret, r: Result<Secret, UnsealError>)
    requires Sound(c) && Updates(c, pubKey, o, orig, input, update) && Unsealed(c, t, Merged(orig, update), keys, r)
    requires orig.spec.data == None && Items(input) != map[]
    requires LabelFor(Prepared(Onto(o, orig), input).meta) != LabelFor(orig.meta)
    ensures r.Err? && r.error.FailedItems? && forall k :: k in Items(input) ==> ItemFailure(k) in r.error.failures
  {
    var secret := Prepared(Onto(o, orig), input);
    assert Items(secret) == Items(input);
    MergeNeedsMatchingLabels(c, t, pubKey, keys, orig, secret, update, r);
  }

  /**
   * What a merge written into a named original is worth: with the scopes equal it unseals, under the union of the
   * keys, to the original's items overridden by the input's; with the scopes differing no new item ever opens.
   */
  lemma MergedOnTheCommandLine(
    c: Primitives, t: TemplateEngine, pubKey: PublicKey, keys: KeyRing, more: KeyRing, o: Options, orig: SealedSecret,
    plain: map<string, Bytes>, input: Secret, ss: SealedSecret, r: Result<Secret, UnsealError>)
    requires Sound(c) && MergedFrom(c, pubKey, o, orig, input, ss) && Unsealed(c, t, ss, more, r)
    requires orig.spec.data == None && Holds(c, keys, LabelFor(orig.meta), plain, orig.spec.encryptedData)
    requires (forall f :: f in keys ==> HoldsKeyFor(more, keys[f].publicKey)) && HoldsKeyFor(more, pubKey)
    requires orig.meta.name != "" && '/' !in orig.meta.namespace
    requires orig.meta.namespace != "" || SecretScope(orig.meta.annotations) == FinalScope(o, input) == ClusterWideScope
    ensures FinalScope(o, input) == SecretScope(orig.meta.annotations) ==>
              r == Opened(t, ss, plain + Items(input)) && ss.spec.template.data == orig.spec.template.data
    ensures FinalScope(o, input) == SecretScope(orig.meta.annotations) && orig.spec.template.data == map[] ==>
              r.Ok? && r.value.data == plain + Items(input)
    ensures FinalScope(o, input) != SecretScope(orig.meta.annotations) && Items(input) != map[] ==>
              r.Err? && r.error.FailedItems? && forall k :: k in Items(input) ==> ItemFailure(k) in r.error.failures
  {
    var update :| Updates(c, pubKey, o, orig, input, update) && ss == Merged(orig, update);
    MergeLabels(o, orig, input);
    if FinalScope(o, input) == SecretScope(orig.meta.annotations) {
      UpdateUnseals(c, t, pubKey, keys, more, o, orig, plain, input, update, r);
    } else if Items(input) != map[] {
      UpdateFails(c, t, pubKey, more, o, orig, input, update, r);
    }
  }

  /** The merge stays in place, and keeps the template's scope when the input has the same one. */
  lemma MergeKeepsScope(c: Primitives, pubKey: PublicKey, orig: SealedSecret, secret: Secret, update: SealedSecret)
    requires SealedFrom(c, pubKey, secret, update)
    requires SecretScope(secret.meta.annotations) == SecretScope(orig.spec.template.meta.annotations)
    ensures Merged(orig, update).meta == orig.meta
    ensures SecretScope(Merged(orig, update).spec.template.meta.annotations)
         == SecretScope(orig.spec.template.meta.annotations)
  {
    StrippingKeepsScope(secret.meta.annotations);
    OverlayKeepsScope(orig.spec.template.meta.annotations, Stripped(secret.meta.annotations));
  }
}
