/** What sealing and unsealing promise each other. */
module SealingLaws {
  import opened Base
  import opened Types
  import opened Crypto
  import opened Scope
  import opened Sealing

  // ---- Honest items have one outcome ---------------------------------------------------------

  /** `text` is an honest ciphertext of `plaintext` for some key on the ring. */
  ghost predicate HeldItem(c: Primitives, keys: KeyRing, lbl: string, plaintext: Bytes, text: string) {
    exists f :: f in keys && SealedItem(c, keys[f].publicKey, lbl, plaintext, text)
  }

  ghost predicate Holds(
    c: Primitives, keys: KeyRing, lbl: string, plain: map<string, Bytes>, enc: map<string, string>)
  {
    enc.Keys == plain.Keys && forall k :: k in plain ==> HeldItem(c, keys, lbl, plain[k], enc[k])
  }

  lemma SealedIsHeld(
    c: Primitives, pubKey: PublicKey, keys: KeyRing, lbl: string, plain: map<string, Bytes>, enc: map<string, string>)
    requires SealedItems(c, pubKey, lbl, plain, enc) && HoldsKeyFor(keys, pubKey)
    ensures Holds(c, keys, lbl, plain, enc)
  {
  }

  /** A sealed item has exactly one outcome, decided by label and key ring. */
  lemma SealedItemOutcome(
    c: Primitives, pubKey: PublicKey, lbl: string, plaintext: Bytes, text: string,
    keys: KeyRing, lbl': string, o: ItemOutcome)
    requires Sound(c) && SealedItem(c, pubKey, lbl, plaintext, text)
    ensures IsOutcome(c, keys, lbl', text, o) <==>
            o == if lbl' == lbl && HoldsKeyFor(keys, pubKey) then Plain(plaintext) else NoKeyOpens
  {
  }

  ghost predicate AllOpened(o: Outcomes, plain: map<string, Bytes>) {
    o.Keys == plain.Keys && forall k :: k in plain ==> o[k] == Plain(plain[k])
  }

  lemma HeldOutcomes(
    c: Primitives, keys: KeyRing, lbl: string, plain: map<string, Bytes>, enc: map<string, string>, o: Outcomes)
    requires Sound(c) && Holds(c, keys, lbl, plain, enc)
    requires AreOutcomes(c, keys, lbl, enc, o)
    ensures ItemFailures(o) == {} && PlainItems(o) == plain && TemplateInput(o) == plain
    ensures AllOpened(o, plain)
  {
    forall k | k in plain ensures o[k] == Plain(plain[k]) {
      var f :| f in keys && SealedItem(c, keys[f].publicKey, lbl, plain[k], enc[k]);
      SealedItemOutcome(c, keys[f].publicKey, lbl, plain[k], enc[k], keys, lbl, o[k]);
    }
    NoFailureMeansAllPlain(o);
  }

  /** Held items unseal, in every order of keys, items and templates, to the same Secret. */
  lemma UnsealHeld(
    c: Primitives, t: TemplateEngine, ss: SealedSecret, keys: KeyRing, plain: map<string, Bytes>,
    r: Result<Secret, UnsealError>)
    requires Sound(c) && ss.spec.data == None
    requires Holds(c, keys, LabelFor(ss.meta), plain, ss.spec.encryptedData)
    requires Unsealed(c, t, ss, keys, r)
    ensures r == Opened(t, ss, plain)
  {
    var o :| AreOutcomes(c, keys, LabelFor(ss.meta), ss.spec.encryptedData, o) && r == Assemble(t, ss, o);
    HeldOutcomes(c, keys, LabelFor(ss.meta), plain, ss.spec.encryptedData, o);
  }

  /** A larger key ring holds what a smaller one holds. */
  lemma HoldsIsMonotone(
    c: Primitives, keys: KeyRing, more: KeyRing, lbl: string, plain: map<string, Bytes>, enc: map<string, string>)
    requires Holds(c, keys, lbl, plain, enc)
    requires forall f :: f in keys ==> HoldsKeyFor(more, keys[f].publicKey)
    ensures Holds(c, more, lbl, plain, enc)
  {
  }

  /** Overlaying held items, plaintexts and ciphertexts alike, holds. */
  lemma OverlayHolds(
    c: Primitives, keys: KeyRing, lbl: string, plain: map<string, Bytes>, enc: map<string, string>,
    plain': map<string, Bytes>, enc': map<string, string>)
    requires Holds(c, keys, lbl, plain, enc) && Holds(c, keys, lbl, plain', enc')
    ensures Holds(c, keys, lbl, plain + plain', enc + enc')
  {
  }

  // ---- What unsealing returns, from the parts ------------------------------------------------

  /** The template text parses, and executes on these items. */
  predicate Executes(t: TemplateEngine, key: string, text: string, items: map<string, Bytes>) {
    t.parses(key, text) && t.execute(key, text, items).Some?
  }

  /** What a template is executed on: every item that was valid Base64, the plaintext of those that opened. */
  ghost predicate SeenBy(o: Outcomes, input: map<string, Bytes>) {
    && (forall k :: k in input <==> k in o && !o[k].BadBase64?)
    && (forall k :: k in input ==> input[k] == if o[k].Plain? then o[k].plaintext else [])
  }

  /** The metadata of the template with the sealed secret's name and namespace, owned unless that is skipped. */
  ghost predicate HasMeta(ss: SealedSecret, meta: ObjectMeta) {
    && meta.name == ss.meta.name && meta.namespace == ss.meta.namespace
    && meta.labels == ss.spec.template.meta.labels && meta.annotations == ss.spec.template.meta.annotations
    && meta.uid == ss.spec.template.meta.uid && meta.generation == ss.spec.template.meta.generation
    && (if SKIP_SET_OWNER_REFERENCES in meta.annotations && meta.annotations[SKIP_SET_OWNER_REFERENCES] == "true"
        then meta.ownerReferences == ss.spec.template.meta.ownerReferences
        else meta.ownerReferences == [OwnerReference(ss.apiVersion, ss.kind, ss.meta.name, ss.meta.uid, true)])
  }

  /**
   * Unsealing succeeds exactly when every item opens and every template parses and executes on the opened items. The
   * Secret then has the executed templates, every other item's plaintext and nothing else; otherwise the failures are
   * exactly the items that did not open and the templates that did not execute.
   */
  lemma UnsealMeans(c: Primitives, t: TemplateEngine, ss: SealedSecret, keys: KeyRing, r: Result<Secret, UnsealError>)
    returns (o: Outcomes, input: map<string, Bytes>)
    requires ss.spec.data == None && Unsealed(c, t, ss, keys, r)
    ensures AreOutcomes(c, keys, LabelFor(ss.meta), ss.spec.encryptedData, o) && SeenBy(o, input)
    ensures r.Ok? <==> (forall k :: k in o ==> o[k].Plain?)
                       && forall k :: k in ss.spec.template.data ==> Executes(t, k, ss.spec.template.data[k], input)
    ensures r.Ok? ==> SecretMeans(t, ss, o, input, r.value)
    ensures r.Err? ==> r.error.FailedItems? && FailuresMean(t, ss, o, input, r.error.failures)
  {
    o :| AreOutcomes(c, keys, LabelFor(ss.meta), ss.spec.encryptedData, o) && r == Assemble(t, ss, o);
    input := TemplateInput(o);
    NoFailureMeansAllPlain(o);
    FailedTemplates(t, ss.spec.template.data, input);
    if r.Ok? {
      AssembledMeans(t, ss, o);
    } else {
      FailedMeans(t, ss, o);
    }
  }

  ghost predicate SecretMeans(
    t: TemplateEngine, ss: SealedSecret, o: Outcomes, input: map<string, Bytes>, secret: Secret)
  {
    var texts := ss.spec.template.data;
    && HasMeta(ss, secret.meta) && secret.stringData == map[]
    && secret.secretType == ss.spec.template.secretType && secret.immutable == ss.spec.template.immutable
    && (forall k :: k in secret.data <==> k in o || k in texts)
    && (forall k :: k in texts ==> k in secret.data && Some(secret.data[k]) == t.execute(k, texts[k], input))
    && (forall k :: k in o && k !in texts ==> k in secret.data && o[k] == Plain(secret.data[k]))
  }

  ghost predicate FailuresMean(
    t: TemplateEngine, ss: SealedSecret, o: Outcomes, input: map<string, Bytes>, failures: set<Failure>)
  {
    var texts := ss.spec.template.data;
    && (forall k :: ItemFailure(k) in failures <==> k in o && !o[k].Plain?)
    && (forall k :: TemplateFailure(k) in failures <==> k in texts && !Executes(t, k, texts[k], input))
  }

  lemma FailedTemplates(t: TemplateEngine, texts: map<string, string>, input: map<string, Bytes>)
    ensures forall k :: TemplateFailure(k) in TemplateFailures(t, texts, input) <==>
              k in texts && !Executes(t, k, texts[k], input)
    ensures TemplateFailures(t, texts, input) == {} <==> forall k :: k in texts ==> Executes(t, k, texts[k], input)
  {
    if TemplateFailures(t, texts, input) != {} {
      var f :| f in TemplateFailures(t, texts, input);
      assert !Executes(t, f.key, texts[f.key], input);
    }
  }

  lemma AssembledMeans(t: TemplateEngine, ss: SealedSecret, o: Outcomes)
    requires Assemble(t, ss, o).Ok?
    ensures SecretMeans(t, ss, o, TemplateInput(o), Assemble(t, ss, o).value)
  {
    NoFailureMeansAllPlain(o);
    FailedTemplates(t, ss.spec.template.data, TemplateInput(o));
  }

  lemma FailedMeans(t: TemplateEngine, ss: SealedSecret, o: Outcomes)
    requires Assemble(t, ss, o).Err?
    ensures Assemble(t, ss, o).error.FailedItems?
    ensures FailuresMean(t, ss, o, TemplateInput(o), Assemble(t, ss, o).error.failures)
  {
    NoFailureMeansAllPlain(o);
    FailedTemplates(t, ss.spec.template.data, TemplateInput(o));
  }

  /** For honest items: templates are executed on all the plaintexts, and on nothing else. */
  lemma TemplatesSeePlaintexts(
    c: Primitives, t: TemplateEngine, ss: SealedSecret, keys: KeyRing, plain: map<string, Bytes>,
    r: Result<Secret, UnsealError>)
    requires Sound(c) && ss.spec.data == None && Unsealed(c, t, ss, keys, r)
    requires Holds(c, keys, LabelFor(ss.meta), plain, ss.spec.encryptedData)
    ensures r.Ok? <==> forall k :: k in ss.spec.template.data ==> Executes(t, k, ss.spec.template.data[k], plain)
    ensures r.Ok? ==> r.value.data.Keys == plain.Keys + ss.spec.template.data.Keys
    ensures r.Ok? ==> forall k :: k in ss.spec.template.data ==>
              k in r.value.data && Some(r.value.data[k]) == t.execute(k, ss.spec.template.data[k], plain)
    ensures r.Ok? ==> forall k :: k in plain && k !in ss.spec.template.data ==>
              k in r.value.data && r.value.data[k] == plain[k]
    ensures r.Err? ==> r.error.FailedItems? && forall f :: f in r.error.failures <==>
              && f.TemplateFailure? && f.key in ss.spec.template.data
              && !Executes(t, f.key, ss.spec.template.data[f.key], plain)
  {
    var o, input := UnsealMeans(c, t, ss, keys, r);
    HeldOutcomes(c, keys, LabelFor(ss.meta), plain, ss.spec.encryptedData, o);
    AllOpenedIsSeen(o, plain, input);
    if r.Ok? {
      AllOpenedMeans(t, ss, o, plain, r.value);
    } else {
      AllOpenedFails(t, ss, o, plain, r.error.failures);
    }
  }

  lemma AllOpenedIsSeen(o: Outcomes, plain: map<string, Bytes>, input: map<string, Bytes>)
    requires AllOpened(o, plain) && SeenBy(o, input)
    ensures input == plain && forall k :: k in o ==> o[k].Plain?
  {
  }

  lemma AllOpenedMeans(t: TemplateEngine, ss: SealedSecret, o: Outcomes, plain: map<string, Bytes>, secret: Secret)
    requires AllOpened(o, plain) && SecretMeans(t, ss, o, plain, secret)
    ensures secret.data.Keys == plain.Keys + ss.spec.template.data.Keys
    ensures forall k :: k in plain && k !in ss.spec.template.data ==> k in secret.data && secret.data[k] == plain[k]
  {
    assert forall k :: k in secret.data <==> k in plain || k in ss.spec.template.data;
  }

  lemma AllOpenedFails(
    t: TemplateEngine, ss: SealedSecret, o: Outcomes, plain: map<string, Bytes>, failures: set<Failure>)
    requires AllOpened(o, plain) && FailuresMean(t, ss, o, plain, failures)
    ensures forall f :: f in failures <==>
              && f.TemplateFailure? && f.key in ss.spec.template.data
              && !Executes(t, f.key, ss.spec.template.data[f.key], plain)
  {
    forall f ensures f in failures <==>
              && f.TemplateFailure? && f.key in ss.spec.template.data
              && !Executes(t, f.key, ss.spec.template.data[f.key], plain)
    {
      assert f == ItemFailure(f.key) || f == TemplateFailure(f.key);
    }
  }

  // ---- Place and status ----------------------------------------------------------------------

  /** Whatever the template says, what is unsealed has the name and namespace of the sealed secret. */
  lemma UnsealedKeepsPlace(c: Primitives, t: TemplateEngine, ss: SealedSecret, keys: KeyRing, secret: Secret)
    requires Unsealed(c, t, ss, keys, Ok(secret))
    ensures secret.meta.name == ss.meta.name && secret.meta.namespace == ss.meta.namespace
  {
  }

  /** Unsealing does not look at the status. */
  lemma UnsealedIgnoresStatus(
    c: Primitives, t: TemplateEngine, ss: SealedSecret, ss': SealedSecret, keys: KeyRing,
    r: Result<Secret, UnsealError>)
    requires ss' == ss.(status := ss'.status) && Unsealed(c, t, ss, keys, r)
    ensures Unsealed(c, t, ss', keys, r)
  {
    if ss.spec.data.None? {
      var o :| AreOutcomes(c, keys, LabelFor(ss.meta), ss.spec.encryptedData, o) && r == Assemble(t, ss, o);
      assert Assemble(t, ss', o) == Assemble(t, ss, o);
    }
  }

  // ---- Round trip ---------------------------------------------------------------------------

  /** `ss'` is `ss` as the cluster keeps it: the API server may add identity, never move it. */
  ghost predicate DeployedAs(ss: SealedSecret, ss': SealedSecret) {
    && ss'.spec == ss.spec
    && ss'.meta.name == ss.meta.name && ss'.meta.namespace == ss.meta.namespace
    && SecretScope(ss'.meta.annotations) == SecretScope(ss.meta.annotations)
  }

  /** The Secret that comes back. */
  function RoundTripped(secret: Secret, ss: SealedSecret): Secret {
    Secret(
      secret.meta.(
        annotations := Stripped(secret.meta.annotations),
        ownerReferences :=
          if IsTrue(secret.meta.annotations, SKIP_SET_OWNER_REFERENCES) then []
          else [OwnerReference(ss.apiVersion, ss.kind, secret.meta.name, ss.meta.uid, true)]),
      secret.data + secret.stringData, map[], secret.secretType, secret.immutable)
  }

  lemma SealedKeepsLabel(c: Primitives, pubKey: PublicKey, secret: Secret, ss: SealedSecret, ss': SealedSecret)
    requires SealedFrom(c, pubKey, secret, ss) && DeployedAs(ss, ss')
    ensures LabelFor(ss'.meta) == LabelFor(secret.meta)
    ensures SecretScope(ss'.meta.annotations) == SecretScope(secret.meta.annotations)
         == SecretScope(ss'.spec.template.meta.annotations)
  {
  }

  /** Sealing, deploying and unsealing returns the Secret, whatever else is on the key ring. */
  lemma RoundTrip(
    c: Primitives, t: TemplateEngine, pubKey: PublicKey, secret: Secret, ss: SealedSecret, ss': SealedSecret,
    keys: KeyRing, r: Result<Secret, UnsealError>)
    requires Sound(c) && SealedFrom(c, pubKey, secret, ss) && DeployedAs(ss, ss')
    requires HoldsKeyFor(keys, pubKey) && Unsealed(c, t, ss', keys, r)
    ensures r == Ok(RoundTripped(secret, ss'))
    ensures SecretScope(r.value.meta.annotations) == SecretScope(secret.meta.annotations)
  {
    SealedKeepsLabel(c, pubKey, secret, ss, ss');
    SealedIsHeld(c, pubKey, keys, LabelFor(secret.meta), Items(secret), ss.spec.encryptedData);
    UnsealHeld(c, t, ss', keys, Items(secret), r);
    OpenedWithoutTemplates(t, ss', Items(secret));
    SkipSurvivesStripping(secret.meta.annotations);
  }

  lemma OpenedWithoutTemplates(t: TemplateEngine, ss: SealedSecret, plain: map<string, Bytes>)
    requires ss.spec.template.data == map[]
    ensures Opened(t, ss, plain) ==
            Ok(Secret(UnsealedMeta(ss), plain, map[], ss.spec.template.secretType, ss.spec.template.immutable))
  {
    assert TemplateFailures(t, map[], plain) == {};
    assert plain + Rendered(t, map[], plain) == plain;
  }

  lemma SkipSurvivesStripping(a: map<string, string>)
    ensures IsTrue(Stripped(a), SKIP_SET_OWNER_REFERENCES) == IsTrue(a, SKIP_SET_OWNER_REFERENCES)
  {
  }

  /** Items of one key unseal together or fail together. */
  lemma SealedOutcomes(
    c: Primitives, pubKey: PublicKey, lbl: string, plain: map<string, Bytes>, enc: map<string, string>,
    keys: KeyRing, lbl': string, o: Outcomes)
    requires Sound(c) && SealedItems(c, pubKey, lbl, plain, enc) && AreOutcomes(c, keys, lbl', enc, o)
    ensures o.Keys == plain.Keys
    ensures forall k :: k in o ==>
              o[k] == if lbl' == lbl && HoldsKeyFor(keys, pubKey) then Plain(plain[k]) else NoKeyOpens
  {
    forall k | k in o
      ensures o[k] == if lbl' == lbl && HoldsKeyFor(keys, pubKey) then Plain(plain[k]) else NoKeyOpens
    {
      SealedItemOutcome(c, pubKey, lbl, plain[k], enc[k], keys, lbl', o[k]);
    }
  }

  /** Without the key, or moved out of its scope, a Secret with items does not unseal at all. */
  lemma WrongKeyOrPlace(
    c: Primitives, t: TemplateEngine, pubKey: PublicKey, secret: Secret, ss: SealedSecret, moved: SealedSecret,
    keys: KeyRing, r: Result<Secret, UnsealError>)
    requires Sound(c) && SealedFrom(c, pubKey, secret, ss) && moved.spec == ss.spec
    requires Unsealed(c, t, moved, keys, r)
    ensures r.Ok? <==>
            Items(secret) == map[] || (LabelFor(moved.meta) == LabelFor(secret.meta) && HoldsKeyFor(keys, pubKey))
    ensures r.Err? ==> r.error == FailedItems(set k | k in Items(secret).Keys :: ItemFailure(k))
  {
    var lbl, lbl' := LabelFor(secret.meta), LabelFor(moved.meta);
    var o :| AreOutcomes(c, keys, lbl', ss.spec.encryptedData, o) && r == Assemble(t, moved, o);
    SealedOutcomes(c, pubKey, lbl, Items(secret), ss.spec.encryptedData, keys, lbl', o);
    AllOpenOrNone(t, moved, Items(secret), lbl' == lbl && HoldsKeyFor(keys, pubKey), o);
  }

  lemma AllOpenOrNone(t: TemplateEngine, ss: SealedSecret, plain: map<string, Bytes>, opens: bool, o: Outcomes)
    requires ss.spec.template.data == map[] && o.Keys == plain.Keys
    requires forall k :: k in o ==> o[k] == if opens then Plain(plain[k]) else NoKeyOpens
    ensures Assemble(t, ss, o).Ok? <==> plain == map[] || opens
    ensures Assemble(t, ss, o).Err? ==>
              Assemble(t, ss, o).error == FailedItems(set k | k in plain.Keys :: ItemFailure(k))
  {
    NoFailureMeansAllPlain(o);
    OpenedWithoutTemplates(t, ss, PlainItems(o));
    if plain != map[] {
      var k :| k in plain;
      assert k in o;
    }
    if Assemble(t, ss, o).Err? {
      NoneOpened(o);
      assert TemplateFailures(t, map[], TemplateInput(o)) == {};
      assert ItemFailures(o) + {} == ItemFailures(o);
    }
  }

  lemma NoneOpened(o: Outcomes)
    requires forall k :: k in o ==> o[k].NoKeyOpens?
    ensures ItemFailures(o) == set k | k in o.Keys :: ItemFailure(k)
  {
  }

  // ---- All or nothing, in any order ----------------------------------------------------------

  /** `plain` is what the items open to, for some order of the keys. */
  ghost predicate OpensTo(
    c: Primitives, keys: KeyRing, lbl: string, enc: map<string, string>, plain: map<string, Bytes>)
  {
    plain.Keys == enc.Keys && forall k :: k in enc ==> IsOutcome(c, keys, lbl, enc[k], Plain(plain[k]))
  }

  lemma SuccessOpensAll(c: Primitives, t: TemplateEngine, ss: SealedSecret, keys: KeyRing, secret: Secret)
    returns (plain: map<string, Bytes>)
    requires ss.spec.data == None && Unsealed(c, t, ss, keys, Ok(secret))
    ensures OpensTo(c, keys, LabelFor(ss.meta), ss.spec.encryptedData, plain)
    ensures Opened(t, ss, plain) == Ok(secret)
  {
    var lbl, enc := LabelFor(ss.meta), ss.spec.encryptedData;
    var o :| AreOutcomes(c, keys, lbl, enc, o) && Ok(secret) == Assemble(t, ss, o);
    NoFailureMeansAllPlain(o);
    plain := PlainItems(o);
  }

  lemma OpenedUnseals(c: Primitives, t: TemplateEngine, ss: SealedSecret, keys: KeyRing, plain: map<string, Bytes>)
    requires ss.spec.data == None
    requires OpensTo(c, keys, LabelFor(ss.meta), ss.spec.encryptedData, plain)
    ensures Unsealed(c, t, ss, keys, Opened(t, ss, plain))
  {
    OutcomesOf(c, keys, LabelFor(ss.meta), ss.spec.encryptedData, plain);
    assert Assemble(t, ss, AllPlain(plain)) == Opened(t, ss, plain);
  }

  /** Success is exactly: every item opens and every template renders; templates see items only. */
  lemma UnsealIsAllOrNothing(
    c: Primitives, t: TemplateEngine, ss: SealedSecret, keys: KeyRing, secret: Secret)
    requires ss.spec.data == None
    ensures Unsealed(c, t, ss, keys, Ok(secret)) <==>
            exists plain ::
              OpensTo(c, keys, LabelFor(ss.meta), ss.spec.encryptedData, plain) && Opened(t, ss, plain) == Ok(secret)
  {
    var lbl, enc := LabelFor(ss.meta), ss.spec.encryptedData;
    if Unsealed(c, t, ss, keys, Ok(secret)) {
      var plain := SuccessOpensAll(c, t, ss, keys, secret);
    }
    if plain :| OpensTo(c, keys, lbl, enc, plain) && Opened(t, ss, plain) == Ok(secret) {
      OpenedUnseals(c, t, ss, keys, plain);
    }
  }

  function AllPlain(plain: map<string, Bytes>): Outcomes {
    map k | k in plain :: Plain(plain[k])
  }

  lemma OutcomesOf(c: Primitives, keys: KeyRing, lbl: string, enc: map<string, string>, plain: map<string, Bytes>)
    requires OpensTo(c, keys, lbl, enc, plain)
    ensures var o := AllPlain(plain);
      AreOutcomes(c, keys, lbl, enc, o) && PlainItems(o) == plain && TemplateInput(o) == plain && ItemFailures(o) == {}
  {
    var o := AllPlain(plain);
    forall k | k in enc ensures IsOutcome(c, keys, lbl, enc[k], o[k]) {
      assert o[k] == Plain(plain[k]);
    }
    NoFailureMeansAllPlain(o);
    assert PlainItems(o) == plain;
  }

  ghost predicate OneOutcome(c: Primitives, keys: KeyRing, lbl: string, text: string) {
    forall p, q ::
      (IsOutcome(c, keys, lbl, text, Plain(p)) && IsOutcome(c, keys, lbl, text, Plain(q))) ==> p == q
  }

  /** No item opens to two plaintexts. */
  ghost predicate Unambiguous(c: Primitives, keys: KeyRing, lbl: string, enc: map<string, string>) {
    forall k :: k in enc ==> OneOutcome(c, keys, lbl, enc[k])
  }

  lemma OutcomesAreUnique(
    c: Primitives, keys: KeyRing, lbl: string, enc: map<string, string>, o: Outcomes, o': Outcomes)
    requires Unambiguous(c, keys, lbl, enc)
    requires AreOutcomes(c, keys, lbl, enc, o) && AreOutcomes(c, keys, lbl, enc, o')
    ensures o == o'
  {
  }

  /** Iteration orders cannot be told apart by the result, failures included. */
  lemma UnsealIsOrderIndependent(
    c: Primitives, t: TemplateEngine, ss: SealedSecret, keys: KeyRing,
    r: Result<Secret, UnsealError>, r': Result<Secret, UnsealError>)
    requires Unambiguous(c, keys, LabelFor(ss.meta), ss.spec.encryptedData)
    requires Unsealed(c, t, ss, keys, r) && Unsealed(c, t, ss, keys, r')
    ensures r == r'
  {
    if ss.spec.data == None {
      var lbl, enc := LabelFor(ss.meta), ss.spec.encryptedData;
      var o :| AreOutcomes(c, keys, lbl, enc, o) && r == Assemble(t, ss, o);
      var o' :| AreOutcomes(c, keys, lbl, enc, o') && r' == Assemble(t, ss, o');
      OutcomesAreUnique(c, keys, lbl, enc, o, o');
    }
  }

  /** And the condition is exact: once every item opens, an ambiguous item shows in the result. */
  lemma AmbiguityShows(c: Primitives, t: TemplateEngine, ss: SealedSecret, keys: KeyRing, plain: map<string, Bytes>)
    requires ss.spec.data == None && ss.spec.template.data == map[]
    requires OpensTo(c, keys, LabelFor(ss.meta), ss.spec.encryptedData, plain)
    ensures (forall r, r' :: Unsealed(c, t, ss, keys, r) && Unsealed(c, t, ss, keys, r') ==> r == r')
       <==> Unambiguous(c, keys, LabelFor(ss.meta), ss.spec.encryptedData)
  {
    var lbl, enc := LabelFor(ss.meta), ss.spec.encryptedData;
    if Unambiguous(c, keys, lbl, enc) {
      forall r, r' | Unsealed(c, t, ss, keys, r) && Unsealed(c, t, ss, keys, r') ensures r == r' {
        UnsealIsOrderIndependent(c, t, ss, keys, r, r');
      }
    } else {
      var k :| k in enc && !OneOutcome(c, keys, lbl, enc[k]);
      AmbiguousItemShows(c, t, ss, keys, plain, k);
    }
  }

  lemma OpensToAlso(
    c: Primitives, keys: KeyRing, lbl: string, enc: map<string, string>, plain: map<string, Bytes>, k: string, p: Bytes)
    requires OpensTo(c, keys, lbl, enc, plain) && k in plain && IsOutcome(c, keys, lbl, enc[k], Plain(p))
    ensures OpensTo(c, keys, lbl, enc, plain[k := p])
  {
    assert plain[k := p].Keys == plain.Keys;
  }

  lemma AmbiguousItemShows(
    c: Primitives, t: TemplateEngine, ss: SealedSecret, keys: KeyRing, plain: map<string, Bytes>, k: string)
    requires ss.spec.data == None && ss.spec.template.data == map[]
    requires OpensTo(c, keys, LabelFor(ss.meta), ss.spec.encryptedData, plain)
    requires k in plain && !OneOutcome(c, keys, LabelFor(ss.meta), ss.spec.encryptedData[k])
    ensures exists r, r' :: Unsealed(c, t, ss, keys, r) && Unsealed(c, t, ss, keys, r') && r != r'
  {
    var lbl, enc := LabelFor(ss.meta), ss.spec.encryptedData;
    var p, q :| IsOutcome(c, keys, lbl, enc[k], Plain(p)) && IsOutcome(c, keys, lbl, enc[k], Plain(q)) && p != q;
    OpensToAlso(c, keys, lbl, enc, plain, k, p);
    OpensToAlso(c, keys, lbl, enc, plain, k, q);
    TwoResults(c, t, ss, keys, plain[k := p], plain[k := q], k);
  }

  lemma TwoResults(
    c: Primitives, t: TemplateEngine, ss: SealedSecret, keys: KeyRing,
    plain: map<string, Bytes>, plain': map<string, Bytes>, k: string)
    requires ss.spec.data == None && ss.spec.template.data == map[]
    requires OpensTo(c, keys, LabelFor(ss.meta), ss.spec.encryptedData, plain)
    requires OpensTo(c, keys, LabelFor(ss.meta), ss.spec.encryptedData, plain')
    requires k in plain && k in plain' && plain[k] != plain'[k]
    ensures exists r, r' :: Unsealed(c, t, ss, keys, r) && Unsealed(c, t, ss, keys, r') && r != r'
  {
    UnsealsTo(c, t, ss, keys, plain);
    UnsealsTo(c, t, ss, keys, plain');
    var r, r' := Opened(t, ss, plain), Opened(t, ss, plain');
    assert r.value.data[k] != r'.value.data[k];
    assert Unsealed(c, t, ss, keys, r) && Unsealed(c, t, ss, keys, r') && r != r';
  }

  lemma UnsealsTo(c: Primitives, t: TemplateEngine, ss: SealedSecret, keys: KeyRing, plain: map<string, Bytes>)
    requires ss.spec.data == None && ss.spec.template.data == map[]
    requires OpensTo(c, keys, LabelFor(ss.meta), ss.spec.encryptedData, plain)
    ensures Opened(t, ss, plain).Ok? && Opened(t, ss, plain).value.data == plain
    ensures Unsealed(c, t, ss, keys, Opened(t, ss, plain))
  {
    OpenedWithoutTemplates(t, ss, plain);
    OpenedUnseals(c, t, ss, keys, plain);
  }

  // ---- There always is a result ---------------------------------------------------------------

  ghost function AnyOutcome(c: Primitives, keys: KeyRing, lbl: string, text: string): (x: ItemOutcome)
    ensures IsOutcome(c, keys, lbl, text, x)
  {
    if c.decode64(text).None? then BadBase64
    else if exists p :: Opens(c, keys, c.decode64(text).value, lbl, p) then
      var p :| Opens(c, keys, c.decode64(text).value, lbl, p);
      Plain(p)
    else
      NothingOpens(c, keys, c.decode64(text).value, lbl);
      NoKeyOpens
  }

  lemma NothingOpens(c: Primitives, keys: KeyRing, cipher: Bytes, lbl: string)
    requires forall p :: !Opens(c, keys, cipher, lbl, p)
    ensures Closed(c, keys, cipher, lbl)
  {
    forall f | f in keys ensures SingleDecrypt(c, keys[f], cipher, lbl).Err? {
      if SingleDecrypt(c, keys[f], cipher, lbl).Ok? {
        assert Opens(c, keys, cipher, lbl, SingleDecrypt(c, keys[f], cipher, lbl).value);
      }
    }
  }

  /** One of the results unsealing may have: there is at least one for every input. */
  ghost function AnyResult(
    c: Primitives, t: TemplateEngine, ss: SealedSecret, keys: KeyRing): (r: Result<Secret, UnsealError>)
    ensures Unsealed(c, t, ss, keys, r)
  {
    var lbl, enc := LabelFor(ss.meta), ss.spec.encryptedData;
    if ss.spec.data.Some? then Err(DeprecatedData)
    else
      var o := map k | k in enc :: AnyOutcome(c, keys, lbl, enc[k]);
      assert AreOutcomes(c, keys, lbl, enc, o);
      Assemble(t, ss, o)
  }

  // ---- Renaming items -----------------------------------------------------------------------

  /** `m'` is `m` with its keys renamed one to one by `names`. */
  ghost predicate Renames<V>(names: map<string, string>, m: map<string, V>, m': map<string, V>) {
    && m.Keys <= names.Keys
    && (forall k, k' :: k in m && k' in m && names[k] == names[k'] ==> k == k')
    && (forall k :: k in m ==> names[k] in m' && m'[names[k]] == m[k])
    && (forall n :: n in m' ==> exists k :: k in m && names[k] == n)
  }

  /** Without templates, renaming the items and unsealing is unsealing and renaming. */
  lemma RenamingCommutes(
    c: Primitives, t: TemplateEngine, keys: KeyRing, names: map<string, string>,
    ss: SealedSecret, enc': map<string, string>, secret: Secret)
    requires ss.spec.data == None && ss.spec.template.data == map[]
    requires Renames(names, ss.spec.encryptedData, enc')
    requires Unsealed(c, t, ss, keys, Ok(secret))
    ensures exists data' ::
              && Renames(names, secret.data, data')
              && Unsealed(c, t, ss.(spec := ss.spec.(encryptedData := enc')), keys, Ok(secret.(data := data')))
  {
    var lbl, enc := LabelFor(ss.meta), ss.spec.encryptedData;
    var plain := SuccessOpensAll(c, t, ss, keys, secret);
    OpenedWithoutTemplates(t, ss, plain);
    RenamedOutcomes(c, keys, lbl, names, enc, enc', plain);
    RenamedUnseals(c, t, keys, ss, enc', plain, RenamedMap(names, plain, enc'.Keys));
  }

  lemma RenamedUnseals(
    c: Primitives, t: TemplateEngine, keys: KeyRing, ss: SealedSecret, enc': map<string, string>,
    plain: map<string, Bytes>, plain': map<string, Bytes>)
    requires ss.spec.data == None && ss.spec.template.data == map[]
    requires OpensTo(c, keys, LabelFor(ss.meta), enc', plain')
    ensures Opened(t, ss, plain).Ok?
    ensures Unsealed(c, t, ss.(spec := ss.spec.(encryptedData := enc')), keys,
                     Ok(Opened(t, ss, plain).value.(data := plain')))
  {
    var ss' := ss.(spec := ss.spec.(encryptedData := enc'));
    OpenedWithoutTemplates(t, ss, plain);
    OpenedWithoutTemplates(t, ss', plain');
    UnsealsTo(c, t, ss', keys, plain');
  }

  lemma RenamedOutcomes(
    c: Primitives, keys: KeyRing, lbl: string, names: map<string, string>,
    enc: map<string, string>, enc': map<string, string>, plain: map<string, Bytes>)
    requires Renames(names, enc, enc') && OpensTo(c, keys, lbl, enc, plain)
    ensures (forall n :: n in enc'.Keys ==> exists k :: k in plain && names[k] == n)
    ensures var plain' := RenamedMap(names, plain, enc'.Keys);
      OpensTo(c, keys, lbl, enc', plain') && Renames(names, plain, plain')
  {
    var plain' := RenamedMap(names, plain, enc'.Keys);
    forall n | n in enc' ensures IsOutcome(c, keys, lbl, enc'[n], Plain(plain'[n])) {
      var k := OldName(names, plain, n);
    }
    forall k | k in plain ensures names[k] in plain' && plain'[names[k]] == plain[k] {
      assert OldName(names, plain, names[k]) == k;
    }
  }

  ghost function RenamedMap(
    names: map<string, string>, plain: map<string, Bytes>, image: set<string>): map<string, Bytes>
    requires plain.Keys <= names.Keys
    requires forall n :: n in image ==> exists k :: k in plain && names[k] == n
  {
    map n | n in image :: plain[OldName(names, plain, n)]
  }

  ghost function OldName(names: map<string, string>, plain: map<string, Bytes>, n: string): (k: string)
    requires plain.Keys <= names.Keys && exists k :: k in plain && names[k] == n
    ensures k in plain && names[k] == n
  {
    var k :| k in plain && names[k] == n; k
  }
}
