/** Sealing a Secret item by item, and unsealing it again. */
module Sealing {
  import opened Base
  import opened Types
  import opened Crypto
  import opened Scope

  /** Go templates by contract: a text parses or not, and executes on the decrypted items or not. */
  datatype TemplateEngine = TemplateEngine(
    parses: (string, string) -> bool,
    execute: (string, string, map<string, Bytes>) -> Option<Bytes>)

  datatype SealError = MissingNamespace | EncryptionFailed

  datatype Failure = ItemFailure(key: string) | TemplateFailure(key: string)

  datatype UnsealError = DeprecatedData | FailedItems(failures: set<Failure>)

  // ---- Sealing ------------------------------------------------------------------------------

  /** `text` is the Base64 of a hybrid ciphertext of `plaintext`. */
  ghost predicate SealedItem(c: Primitives, pubKey: PublicKey, lbl: string, plaintext: Bytes, text: string) {
    exists cipher :: IsHybrid(c, pubKey, plaintext, lbl, cipher) && text == c.encode64(cipher)
  }

  ghost predicate SealedItems(
    c: Primitives, pubKey: PublicKey, lbl: string, plain: map<string, Bytes>, enc: map<string, string>)
  {
    enc.Keys == plain.Keys && forall k :: k in plain ==> SealedItem(c, pubKey, lbl, plain[k], enc[k])
  }

  /** The items of a Secret: string data overrides data. */
  function Items(secret: Secret): map<string, Bytes> {
    secret.data + secret.stringData
  }

  predicate Namespaced(secret: Secret) {
    SecretScope(secret.meta.annotations) == ClusterWideScope || secret.meta.namespace != ""
  }

  function TemplateOf(secret: Secret): Template {
    Template(
      secret.meta.(annotations := Stripped(secret.meta.annotations), ownerReferences := []),
      secret.secretType, secret.immutable, map[])
  }

  /** `ss` seals `secret` for `pubKey`. */
  ghost predicate SealedFrom(c: Primitives, pubKey: PublicKey, secret: Secret, ss: SealedSecret) {
    && Namespaced(secret)
    && ss.apiVersion == "" && ss.kind == ""
    && ss.meta == ObjectMeta(secret.meta.name, secret.meta.namespace, "", 0, map[],
                             WithScope(map[], SecretScope(secret.meta.annotations)), [])
    && ss.spec.template == TemplateOf(secret)
    && ss.spec.data == None && ss.status == NO_STATUS
    && SealedItems(c, pubKey, LabelFor(secret.meta), Items(secret), ss.spec.encryptedData)
  }

  /** Random source and public key never get in the way of encrypting a session key. */
  ghost predicate NeverFails(c: Primitives, rnd: Random, pubKey: PublicKey, lbl: string) {
    && (forall n: nat :: rnd(n).Some?)
    && (forall seed: Bytes, m: SessionKey :: c.encryptOAEP(pubKey, seed, m, lbl).Some?)
  }

  /** `text` is the Base64 of the ciphertext made with this draw of the random source. */
  ghost predicate IsSealedWith(
    c: Primitives, draw: Option<Coins>, pubKey: PublicKey, lbl: string, plaintext: Bytes, text: string)
  {
    draw.Some? && exists cipher ::
      IsHybridWith(c, pubKey, draw.value, plaintext, lbl, cipher) && text == c.encode64(cipher)
  }

  /**
   * Each item is sealed with the draw it is told to have, one of the first `n`, and no two items have the same: a
   * session key, and with it the zero nonce, is used once.
   */
  ghost predicate SealedWithDraws(
    c: Primitives, rnd: Random, n: nat, pubKey: PublicKey, lbl: string, items: map<string, Bytes>,
    enc: map<string, string>, draws: map<string, nat>)
  {
    && enc.Keys == draws.Keys == items.Keys
    && (forall k :: k in items ==> draws[k] < n && IsSealedWith(c, rnd(draws[k]), pubKey, lbl, items[k], enc[k]))
    && (forall j, k :: j in draws && k in draws && j != k ==> draws[j] != draws[k])
  }

  lemma SealOneMore(
    c: Primitives, rnd: Random, n: nat, pubKey: PublicKey, lbl: string, items: map<string, Bytes>,
    enc: map<string, string>, draws: map<string, nat>, key: string, plaintext: Bytes, text: string)
    requires SealedWithDraws(c, rnd, n, pubKey, lbl, items, enc, draws)
    requires IsSealedWith(c, rnd(n), pubKey, lbl, plaintext, text)
    ensures SealedWithDraws(
              c, rnd, n + 1, pubKey, lbl, items[key := plaintext], enc[key := text], draws[key := n])
  {
  }

  lemma SealedWithSomeDraws(
    c: Primitives, rnd: Random, n: nat, pubKey: PublicKey, lbl: string, items: map<string, Bytes>,
    enc: map<string, string>, draws: map<string, nat>)
    requires SealedWithDraws(c, rnd, n, pubKey, lbl, items, enc, draws)
    ensures SealedItems(c, pubKey, lbl, items, enc)
  {
    forall k | k in items ensures SealedItem(c, pubKey, lbl, items[k], enc[k]) {
      var coins := rnd(draws[k]).value;
      var cipher :| IsHybridWith(c, pubKey, coins, items[k], lbl, cipher) && enc[k] == c.encode64(cipher);
      assert IsHybrid(c, pubKey, items[k], lbl, cipher);
    }
  }

  /**
   * One range loop over a map of items, in an arbitrary order; `drawn` counts the draws so far. What was sealed
   * before, `plain` with `before`, stays unless an item takes its place.
   */
  method SealItems(
    c: Primitives, rnd: Random, drawn: nat, pubKey: PublicKey, lbl: string, items: map<string, Bytes>,
    sealed: map<string, string>, ghost plain: map<string, Bytes>, ghost before: map<string, nat>)
    returns (r: Option<map<string, string>>, drawn': nat, ghost draws: map<string, nat>)
    requires SealedWithDraws(c, rnd, drawn, pubKey, lbl, plain, sealed, before)
    ensures r.Some? ==> SealedWithDraws(c, rnd, drawn', pubKey, lbl, plain + items, r.value, draws)
    ensures NeverFails(c, rnd, pubKey, lbl) ==> r.Some?
  {
    var enc, n := sealed, drawn;
    draws := before;
    var remaining := items.Keys;
    VisitAllAndNone(plain, items);
    while remaining != {}
      invariant remaining <= items.Keys
      invariant SealedWithDraws(c, rnd, n, pubKey, lbl, plain + (items - remaining), enc, draws)
      decreases |remaining|
    {
      var key :| key in remaining;
      var cipher := HybridEncrypt(c, rnd(n), pubKey, items[key], lbl);
      if cipher.None? {
        return None, n, draws;
      }
      var text := c.encode64(cipher.value);
      VisitOne(plain, items, remaining, key);
      SealOneMore(c, rnd, n, pubKey, lbl, plain + (items - remaining), enc, draws, key, items[key], text);
      enc, draws, n := enc[key := text], draws[key := n], n + 1;
      remaining := remaining - {key};
    }
    return Some(enc), n, draws;
  }

  method NewSealedSecret(c: Primitives, rnd: Random, pubKey: PublicKey, secret: Secret)
    returns (r: Result<SealedSecret, SealError>, ghost draws: map<string, nat>)
    ensures r.Ok? ==> SealedFrom(c, pubKey, secret, r.value)
    ensures r.Ok? ==>
              exists n :: SealedWithDraws(
                c, rnd, n, pubKey, LabelFor(secret.meta), Items(secret), r.value.spec.encryptedData, draws)
    ensures r == Err(MissingNamespace) <==> !Namespaced(secret)
    ensures r == Err(MissingNamespace) <==>
              secret.meta.namespace == "" && !SaysTrue(secret.meta.annotations, CLUSTER_WIDE)
    ensures Namespaced(secret) && NeverFails(c, rnd, pubKey, LabelFor(secret.meta)) ==> r.Ok?
  {
    draws := map[];
    if SecretScope(secret.meta.annotations) != ClusterWideScope && secret.meta.namespace == "" {
      return Err(MissingNamespace), draws;
    }
    var meta := secret.meta;
    var annotations := StripLastAppliedAnnotations(meta.annotations);
    meta := meta.(annotations := annotations);
    meta := meta.(ownerReferences := []);
    var lbl := LabelFor(secret.meta);
    var enc, drawn, first := SealItems(c, rnd, 0, pubKey, lbl, secret.data, map[], map[], map[]);
    if enc.None? {
      return Err(EncryptionFailed), draws;
    }
    assert map[] + secret.data == secret.data;
    enc, drawn, draws := SealItems(c, rnd, drawn, pubKey, lbl, secret.stringData, enc.value, secret.data, first);
    if enc.None? {
      return Err(EncryptionFailed), draws;
    }
    SealedWithSomeDraws(c, rnd, drawn, pubKey, lbl, Items(secret), enc.value, draws);
    annotations := UpdateScopeAnnotations(None, SecretScope(secret.meta.annotations));
    return Ok(SealedSecret(
      "", "",
      ObjectMeta(secret.meta.name, secret.meta.namespace, "", 0, map[], annotations, []),
      Spec(Template(meta, secret.secretType, secret.immutable, map[]), None, enc.value),
      NO_STATUS)), draws;
  }

  // ---- Unsealing ----------------------------------------------------------------------------

  datatype ItemOutcome = BadBase64 | NoKeyOpens | Plain(plaintext: Bytes)

  type Outcomes = map<string, ItemOutcome>

  /** What trying the keys in some order may yield for one item. */
  ghost predicate IsOutcome(c: Primitives, keys: KeyRing, lbl: string, text: string, o: ItemOutcome) {
    match c.decode64(text)
    case None => o == BadBase64
    case Some(cipher) =>
      match o
      case BadBase64 => false
      case NoKeyOpens => Closed(c, keys, cipher, lbl)
      case Plain(p) => Opens(c, keys, cipher, lbl, p)
  }

  ghost predicate AreOutcomes(c: Primitives, keys: KeyRing, lbl: string, enc: map<string, string>, o: Outcomes) {
    o.Keys == enc.Keys && forall k :: k in enc ==> IsOutcome(c, keys, lbl, enc[k], o[k])
  }

  /** What the templates see: decrypted items, with an empty text for those no key opened. */
  function TemplateInput(o: Outcomes): map<string, Bytes> {
    map k | k in o && !o[k].BadBase64? :: if o[k].Plain? then o[k].plaintext else []
  }

  function PlainItems(o: Outcomes): map<string, Bytes> {
    map k | k in o && o[k].Plain? :: o[k].plaintext
  }

  function Render(t: TemplateEngine, key: string, text: string, input: map<string, Bytes>): Option<Bytes> {
    if t.parses(key, text) then t.execute(key, text, input) else None
  }

  function Rendered(t: TemplateEngine, templates: map<string, string>, input: map<string, Bytes>): map<string, Bytes> {
    map k | k in templates && Render(t, k, templates[k], input).Some? :: Render(t, k, templates[k], input).value
  }

  function ItemFailures(o: Outcomes): set<Failure> {
    set k | k in o && !o[k].Plain? :: ItemFailure(k)
  }

  function TemplateFailures(
    t: TemplateEngine, templates: map<string, string>, input: map<string, Bytes>): set<Failure>
  {
    set k | k in templates && Render(t, k, templates[k], input).None? :: TemplateFailure(k)
  }

  function OwnersOf(ss: SealedSecret): seq<OwnerReference> {
    if IsTrue(ss.spec.template.meta.annotations, SKIP_SET_OWNER_REFERENCES)
    then ss.spec.template.meta.ownerReferences
    else [OwnerReference(ss.apiVersion, ss.kind, ss.meta.name, ss.meta.uid, true)]
  }

  function UnsealedMeta(ss: SealedSecret): ObjectMeta {
    ss.spec.template.meta.(
      namespace := ss.meta.namespace, name := ss.meta.name, ownerReferences := OwnersOf(ss))
  }

  /** What opened items make: items first, then templates rendered from them, or what failed. */
  function Opened(t: TemplateEngine, ss: SealedSecret, plain: map<string, Bytes>): Result<Secret, UnsealError> {
    var template := ss.spec.template;
    var failures := TemplateFailures(t, template.data, plain);
    if failures != {} then Err(FailedItems(failures))
    else
      Ok(Secret(
        UnsealedMeta(ss), plain + Rendered(t, template.data, plain), map[], template.secretType, template.immutable))
  }

  /** The Secret, or all the failures, that a set of item outcomes adds up to. */
  function Assemble(t: TemplateEngine, ss: SealedSecret, o: Outcomes): Result<Secret, UnsealError> {
    if ItemFailures(o) == {} then Opened(t, ss, PlainItems(o))
    else Err(FailedItems(ItemFailures(o) + TemplateFailures(t, ss.spec.template.data, TemplateInput(o))))
  }

  /** `r` is a possible result of unsealing `ss`, for some order of the keys. */
  ghost predicate Unsealed(
    c: Primitives, t: TemplateEngine, ss: SealedSecret, keys: KeyRing, r: Result<Secret, UnsealError>)
  {
    if ss.spec.data.Some? then r == Err(DeprecatedData)
    else exists o :: AreOutcomes(c, keys, LabelFor(ss.meta), ss.spec.encryptedData, o) && r == Assemble(t, ss, o)
  }

  lemma OneMoreOutcome(o: Outcomes, key: string, x: ItemOutcome)
    requires key !in o
    ensures ItemFailures(o[key := x]) == ItemFailures(o) + (if x.Plain? then {} else {ItemFailure(key)})
    ensures x.BadBase64? ==> TemplateInput(o[key := x]) == TemplateInput(o)
    ensures x.NoKeyOpens? ==> TemplateInput(o[key := x]) == TemplateInput(o)[key := []]
    ensures x.Plain? ==> TemplateInput(o[key := x]) == TemplateInput(o)[key := x.plaintext]
  {
  }

  ghost predicate RenderedSoFar(
    t: TemplateEngine, done: map<string, string>, input: map<string, Bytes>,
    data: map<string, Bytes>, errs: set<Failure>)
  {
    errs == TemplateFailures(t, done, input) && (errs == {} ==> data == input + Rendered(t, done, input))
  }

  lemma RenderOneMore(
    t: TemplateEngine, done: map<string, string>, input: map<string, Bytes>, data: map<string, Bytes>,
    errs: set<Failure>, key: string, text: string)
    requires key !in done && RenderedSoFar(t, done, input, data, errs) && Render(t, key, text, input).Some?
    ensures RenderedSoFar(t, done[key := text], input, data[key := Render(t, key, text, input).value], errs)
  {
    assert Rendered(t, done[key := text], input) == Rendered(t, done, input)[key := Render(t, key, text, input).value];
  }

  lemma FailOneMore(
    t: TemplateEngine, done: map<string, string>, input: map<string, Bytes>, data: map<string, Bytes>,
    data': map<string, Bytes>, errs: set<Failure>, key: string, text: string)
    requires key !in done && RenderedSoFar(t, done, input, data, errs) && Render(t, key, text, input).None?
    ensures RenderedSoFar(t, done[key := text], input, data', errs + {TemplateFailure(key)})
  {
  }

  method UnsealItem(c: Primitives, keys: KeyRing, lbl: string, text: string) returns (x: ItemOutcome)
    ensures IsOutcome(c, keys, lbl, text, x)
  {
    var valueBytes := c.decode64(text);
    if valueBytes.None? {
      return BadBase64;
    }
    var plaintext := HybridDecrypt(c, keys, valueBytes.value, lbl);
    if plaintext.None? {
      return NoKeyOpens;
    }
    return Plain(plaintext.value);
  }

  method UnsealItems(c: Primitives, keys: KeyRing, lbl: string, enc: map<string, string>)
    returns (data: map<string, Bytes>, errs: set<Failure>, ghost o: Outcomes)
    ensures AreOutcomes(c, keys, lbl, enc, o)
    ensures data == TemplateInput(o) && errs == ItemFailures(o)
  {
    data, errs, o := map[], {}, map[];
    var remaining := enc.Keys;
    while remaining != {}
      invariant remaining <= enc.Keys
      invariant AreOutcomes(c, keys, lbl, enc - remaining, o)
      invariant data == TemplateInput(o) && errs == ItemFailures(o)
      decreases |remaining|
    {
      var key :| key in remaining;
      var x := UnsealItem(c, keys, lbl, enc[key]);
      VisitOne(map[], enc, remaining, key);
      OneMoreOutcome(o, key, x);
      if !x.Plain? {
        errs := errs + {ItemFailure(key)};
      }
      if !x.BadBase64? {
        data := data[key := if x.Plain? then x.plaintext else []];
      }
      AreOutcomesOneMore(c, keys, lbl, enc - remaining, o, key, enc[key], x);
      o := o[key := x];
      remaining := remaining - {key};
    }
    assert enc - remaining == enc;
  }

  lemma AreOutcomesOneMore(
    c: Primitives, keys: KeyRing, lbl: string, enc: map<string, string>, o: Outcomes,
    key: string, text: string, x: ItemOutcome)
    requires AreOutcomes(c, keys, lbl, enc, o) && IsOutcome(c, keys, lbl, text, x)
    ensures AreOutcomes(c, keys, lbl, enc[key := text], o[key := x])
  {
  }

  method RenderTemplates(
    t: TemplateEngine, templates: map<string, string>, input: map<string, Bytes>)
    returns (data: map<string, Bytes>, errs: set<Failure>)
    ensures errs == TemplateFailures(t, templates, input)
    ensures errs == {} ==> data == input + Rendered(t, templates, input)
  {
    data, errs := input, {};
    var remaining := templates.Keys;
    while remaining != {}
      invariant remaining <= templates.Keys
      invariant RenderedSoFar(t, templates - remaining, input, data, errs)
      decreases |remaining|
    {
      var key :| key in remaining;
      VisitOne(map[], templates, remaining, key);
      if !t.parses(key, templates[key]) {
        FailOneMore(t, templates - remaining, input, data, data, errs, key, templates[key]);
        errs := errs + {TemplateFailure(key)};
      } else {
        var plaintext := t.execute(key, templates[key], input);
        if plaintext.None? {
          FailOneMore(t, templates - remaining, input, data, data[key := []], errs, key, templates[key]);
          errs := errs + {TemplateFailure(key)};
        } else {
          RenderOneMore(t, templates - remaining, input, data, errs, key, templates[key]);
        }
        data := data[key := if plaintext.Some? then plaintext.value else []];
      }
      remaining := remaining - {key};
    }
    assert templates - remaining == templates;
  }

  method Unseal(c: Primitives, t: TemplateEngine, ss: SealedSecret, keys: KeyRing)
    returns (r: Result<Secret, UnsealError>)
    ensures Unsealed(c, t, ss, keys, r)
  {
    var lbl := LabelFor(ss.meta);
    if ss.spec.data.Some? {
      return Err(DeprecatedData);
    }
    var input, itemErrs, o := UnsealItems(c, keys, lbl, ss.spec.encryptedData);
    var secret := Secret(ss.spec.template.meta, input, map[], ss.spec.template.secretType, ss.spec.template.immutable);
    var data, templateErrs := RenderTemplates(t, ss.spec.template.data, input);
    var errs := itemErrs + templateErrs;
    NoFailureMeansAllPlain(o);
    assert itemErrs == {} ==> errs == templateErrs;
    if errs != {} {
      return Err(FailedItems(errs));
    }
    secret := secret.(data := data);
    secret := secret.(meta := secret.meta.(namespace := ss.meta.namespace));
    secret := secret.(meta := secret.meta.(name := ss.meta.name));
    if !IsTrue(ss.spec.template.meta.annotations, SKIP_SET_OWNER_REFERENCES) {
      var owner := OwnerReference(ss.apiVersion, ss.kind, ss.meta.name, ss.meta.uid, true);
      secret := secret.(meta := secret.meta.(ownerReferences := [owner]));
    }
    return Ok(secret);
  }

  lemma NoFailureMeansAllPlain(o: Outcomes)
    ensures ItemFailures(o) == {} <==> forall k :: k in o ==> o[k].Plain?
    ensures ItemFailures(o) == {} ==> TemplateInput(o) == PlainItems(o)
  {
    forall k | k in o && !o[k].Plain? ensures ItemFailure(k) in ItemFailures(o) {
    }
  }
}
