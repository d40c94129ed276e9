/** internal/ingress/controller/store/store.go (the ingress and secret event handlers) and
    backend_ssl.go (syncSecret): the local copies the controller works from.

    The store keeps the admissible Ingresses in normal form, an index from secrets to the Ingresses
    that refer to them, and the parsed certificates.  Handlers update the three piecemeal.  After
    every sequence of events they agree with the informers' contents.
 */
module Store {
  import opened Strings
  import opened Types
  import opened Equality
  import opened Normalization
  import opened ObjectRefs

  // ---------------------------------------------------------------- what an Ingress refers to

  function KeyOf(ing: Ingress): string { ing.namespace + "/" + ing.name }

  const AnnotationsPrefix: string := "nginx.ingress.kubernetes.io"

  const SecretAnnotations := ["auth-secret", "auth-tls-secret", "proxy-ssl-secret", "secure-verify-ca-secret"]

  /** objectRefAnnotationNsKey: the secret an annotation names, in the Ingress's namespace by default. */
  function AnnotationSecret(ing: Ingress, annotation: string): Option<string> {
    var key := AnnotationsPrefix + "/" + annotation;
    if key !in ing.annotations || ing.annotations[key] == "" then None else
    var parts := Split(ing.annotations[key], '/');
    if |parts| > 2 || parts[|parts| - 1] == "" then None
    else if |parts| == 1 || parts[0] == "" then Some(ing.namespace + "/" + parts[|parts| - 1])
    else Some(ing.annotations[key])
  }

  predicate TLSRefersTo(ing: Ingress, secret: string) {
    exists i :: 0 <= i < |ing.tls| && ing.tls[i].secretName != ""
                && secret == ing.namespace + "/" + ing.tls[i].secretName
  }

  predicate AnnotationRefersTo(ing: Ingress, secret: string) {
    exists i :: 0 <= i < |SecretAnnotations| && AnnotationSecret(ing, SecretAnnotations[i]) == Some(secret)
  }

  predicate RefersTo(ing: Ingress, secret: string) {
    TLSRefersTo(ing, secret) || AnnotationRefersTo(ing, secret)
  }

  /** The secret references collected by updateSecretIngressMap. */
  method SecretReferences(ing: Ingress) returns (refSecrets: seq<string>)
    ensures forall s :: s in refSecrets <==> RefersTo(ing, s)
  {
    refSecrets := [];
    for i := 0 to |ing.tls|
      invariant forall s :: s in refSecrets <==>
        exists k :: 0 <= k < i && ing.tls[k].secretName != "" && s == ing.namespace + "/" + ing.tls[k].secretName
    {
      var secrName := ing.tls[i].secretName;
      if secrName != "" {
        refSecrets := refSecrets + [ing.namespace + "/" + secrName];
      }
    }
    assert forall s :: s in refSecrets <==> TLSRefersTo(ing, s);
    for i := 0 to |SecretAnnotations|
      invariant forall s :: s in refSecrets <==>
        TLSRefersTo(ing, s) || exists k :: 0 <= k < i && AnnotationSecret(ing, SecretAnnotations[k]) == Some(s)
    {
      var secrKey := AnnotationSecret(ing, SecretAnnotations[i]);
      if secrKey.Some? {
        refSecrets := refSecrets + [secrKey.value];
      }
    }
  }

  // ---------------------------------------------------------------- the simple view

  /** parse stands for getPemCertificate on a secret's data; certificateKeys for the secrets whose
      certificates the annotation parsers ask for. */
  datatype StoreConfig = StoreConfig(
    classes: ClassConfig, defaultSSLCertificate: string,
    parse: (string, string) -> Option<SSLCert>, certificateKeys: Ingress -> seq<string>)

  /** The Ingresses to keep, given what the informer holds. */
  function Kept(c: StoreConfig, ingresses: map<string, Ingress>): map<string, Ingress> {
    map k | k in ingresses && Admissible(c.classes, ingresses[k]) :: Normalize(ingresses[k])
  }

  /** If the secret exists and parses, its certificate is stored. */
  ghost predicate UpToDate(c: StoreConfig, secrets: map<string, string>, certs: map<string, SSLCert>, key: string) {
    key in secrets && c.parse(key, secrets[key]).Some? ==>
      key in certs && EqualCert(Some(certs[key]), c.parse(key, secrets[key]))
  }

  /** The certificates the controller uses: the default one, and those of referenced secrets. */
  ghost predicate IsNeeded(c: StoreConfig, refs: map<string, set<string>>, key: string) {
    key == c.defaultSSLCertificate || exists consumer :: Refers(refs, key, consumer)
  }

  ghost function InUse(c: StoreConfig, refs: map<string, set<string>>,
                       certs: map<string, SSLCert>): map<string, SSLCert> {
    map key | key in certs && IsNeeded(c, refs, key) :: certs[key]
  }

  lemma RemovedUnneeded(c: StoreConfig, refs: map<string, set<string>>, certs: map<string, SSLCert>, key: string)
    ensures InUse(c, refs, certs - {key}) == InUse(c, refs, certs) <==> key !in certs || !IsNeeded(c, refs, key)
  {
    var before, after := InUse(c, refs, certs), InUse(c, refs, certs - {key});
    assert key !in after;
    if key in certs && IsNeeded(c, refs, key) {
      assert key in before;
    } else {
      assert before == after;
    }
  }

  lemma KeptAfterSet(c: StoreConfig, ingresses: map<string, Ingress>, ing: Ingress)
    ensures Kept(c, ingresses[KeyOf(ing) := ing]) ==
            if Admissible(c.classes, ing) then Kept(c, ingresses)[KeyOf(ing) := Normalize(ing)]
            else Kept(c, ingresses) - {KeyOf(ing)}
  {
  }

  lemma KeptAfterRemove(c: StoreConfig, ingresses: map<string, Ingress>, key: string)
    ensures Kept(c, ingresses - {key}) == Kept(c, ingresses) - {key}
  {
  }

  /** Syncing secrets loses nothing: what was up to date stays so, and no unknown key appears. */
  ghost predicate Improves(c: StoreConfig, secrets: map<string, string>, before: map<string, SSLCert>,
                           after: map<string, SSLCert>) {
    && (forall key :: UpToDate(c, secrets, before, key) ==> UpToDate(c, secrets, after, key))
    && (before.Keys <= secrets.Keys ==> after.Keys <= secrets.Keys)
  }

  /** What the informers report: an object's new state, or its removal. */
  datatype Event =
    | SetIngress(ingress: Ingress)
    | RemoveIngress(key: string)
    | SetSecret(key: string, data: string)
    | RemoveSecret(key: string)

  function IngressesAfter(ingresses: map<string, Ingress>, e: Event): map<string, Ingress> {
    match e
    case SetIngress(ing) => ingresses[KeyOf(ing) := ing]
    case RemoveIngress(key) => ingresses - {key}
    case _ => ingresses
  }

  function SecretsAfter(secrets: map<string, string>, e: Event): map<string, string> {
    match e
    case SetSecret(key, data) => secrets[key := data]
    case RemoveSecret(key) => secrets - {key}
    case _ => secrets
  }

  function AllIngresses(events: seq<Event>): map<string, Ingress> {
    if events == [] then map[] else IngressesAfter(AllIngresses(events[..|events| - 1]), events[|events| - 1])
  }

  function AllSecrets(events: seq<Event>): map<string, string> {
    if events == [] then map[] else SecretsAfter(AllSecrets(events[..|events| - 1]), events[|events| - 1])
  }

  // ---------------------------------------------------------------- the store

  class K8sStore {
    const cfg: StoreConfig
    const secretIngressMap: ObjectRefMap
    var ingresses: map<string, Ingress>  // the ingress informer's contents
    var secrets: map<string, string>     // the secret lister
    var cached: map<string, Ingress>     // IngressWithAnnotation
    var sslStore: map<string, SSLCert>
    var updates: nat                     // events sent on updateCh

    ghost predicate RefsAgree()
      reads this, secretIngressMap
    {
      && NoEmptySets(secretIngressMap.v)
      && forall ref, c :: Refers(secretIngressMap.v, ref, c) <==> c in cached && RefersTo(cached[c], ref)
    }

    ghost predicate Needed(key: string)
      reads secretIngressMap
    {
      IsNeeded(cfg, secretIngressMap.v, key)
    }

    ghost predicate CertsAgree()
      reads this, secretIngressMap
    {
      && sslStore.Keys <= secrets.Keys
      && forall key :: Needed(key) ==> UpToDate(cfg, secrets, sslStore, key)
    }

    ghost predicate CacheNormal()
      reads this
    {
      forall k :: k in cached ==> KeyOf(cached[k]) == k && Normal(cached[k])
    }

    ghost predicate Valid()
      reads this, secretIngressMap
    {
      && (forall k :: k in ingresses ==> KeyOf(ingresses[k]) == k)
      && cached == Kept(cfg, ingresses)
      && RefsAgree()
      && CertsAgree()
    }

    constructor (c: StoreConfig)
      ensures cfg == c && Valid() && fresh(secretIngressMap)
      ensures ingresses == map[] && secrets == map[]
    {
      cfg := c;
      secretIngressMap := new ObjectRefMap();
      ingresses, secrets, cached, sslStore, updates := map[], map[], map[], map[], 0;
    }

    /** backend_ssl.go syncSecret. */
    method SyncSecret(key: string)
      modifies this`sslStore, this`updates
      ensures UpToDate(cfg, secrets, sslStore, key)
      ensures Improves(cfg, secrets, old(sslStore), sslStore)
      ensures updates >= old(updates)
      ensures sslStore != old(sslStore) ==> updates > old(updates)
    {
      if key !in secrets {
        return;
      }
      var cert := cfg.parse(key, secrets[key]);
      if cert.None? {
        return;
      }
      CertEquivalence();
      if key in sslStore {
        if EqualCert(Some(sslStore[key]), cert) {
          return;
        }
        sslStore := sslStore[key := cert.value];
        updates := updates + 1;
        return;
      }
      sslStore := sslStore[key := cert.value];
      updates := updates + 1;
    }

    /** The annotation parsers' calls of GetAuthCertificate, which sync certificates not seen before. */
    method ExtractAnnotations(ing: Ingress)
      modifies this`sslStore, this`updates
      ensures Improves(cfg, secrets, old(sslStore), sslStore)
      ensures updates >= old(updates)
      ensures sslStore != old(sslStore) ==> updates > old(updates)
    {
      var keys := cfg.certificateKeys(ing);
      for i := 0 to |keys|
        invariant Improves(cfg, secrets, old(sslStore), sslStore)
        invariant updates >= old(updates)
        invariant sslStore != old(sslStore) ==> updates > old(updates)
      {
        if keys[i] !in sslStore {
          SyncSecret(keys[i]);
        }
      }
    }

    /** syncIngress: a normalized copy goes to the cache. */
    method SyncIngress(ing: Ingress)
      modifies this`cached, this`sslStore, this`updates
      ensures cached == old(cached)[KeyOf(ing) := Normalize(ing)]
      ensures Improves(cfg, secrets, old(sslStore), sslStore)
      ensures updates >= old(updates)
      ensures sslStore != old(sslStore) ==> updates > old(updates)
    {
      var copyIng := WithRootedPaths(ing);
      copyIng := SetDefaultNGINXPathType(copyIng);
      ExtractAnnotations(ing);
      cached := cached[KeyOf(ing) := copyIng];
    }

    method UpdateSecretIngressMap(ing: Ingress)
      modifies secretIngressMap
      ensures forall ref, c :: Refers(secretIngressMap.v, ref, c) <==>
                (Refers(old(secretIngressMap.v), ref, c) && c != KeyOf(ing)) || (c == KeyOf(ing) && RefersTo(ing, ref))
      ensures NoEmptySets(secretIngressMap.v)
    {
      secretIngressMap.Delete(KeyOf(ing));
      var refSecrets := SecretReferences(ing);
      secretIngressMap.Insert(KeyOf(ing), refSecrets);
    }

    /** syncSecrets: all secrets the index holds for an Ingress. */
    method SyncSecrets(ing: Ingress)
      modifies this`sslStore, this`updates
      ensures forall ref :: Refers(secretIngressMap.v, ref, KeyOf(ing)) ==> UpToDate(cfg, secrets, sslStore, ref)
      ensures Improves(cfg, secrets, old(sslStore), sslStore)
      ensures updates >= old(updates)
      ensures sslStore != old(sslStore) ==> updates > old(updates)
    {
      var refs := secretIngressMap.ReferencedBy(KeyOf(ing));
      for i := 0 to |refs|
        invariant forall k :: 0 <= k < i ==> UpToDate(cfg, secrets, sslStore, refs[k])
        invariant Improves(cfg, secrets, old(sslStore), sslStore)
        invariant updates >= old(updates)
        invariant sslStore != old(sslStore) ==> updates > old(updates)
      {
        SyncSecret(refs[i]);
      }
    }

    // -------------------------------------------------------------- ingress events

    /** The tail of the add and update handlers. */
    method Keep(ing: Ingress)
      requires RefsAgree() && CertsAgree()
      modifies this`cached, this`sslStore, this`updates, secretIngressMap
      ensures cached == old(cached)[KeyOf(ing) := Normalize(ing)]
      ensures RefsAgree() && CertsAgree()
      ensures updates > old(updates)
    {
      SyncIngress(ing);
      UpdateSecretIngressMap(ing);
      SyncSecrets(ing);
      updates := updates + 1;
    }

    method OnIngressAdd(obj: Ingress)
      requires RefsAgree() && CertsAgree()
      modifies this`cached, this`sslStore, this`updates, secretIngressMap
      ensures cached == if Admissible(cfg.classes, obj) then old(cached)[KeyOf(obj) := Normalize(obj)] else old(cached)
      ensures RefsAgree() && CertsAgree()
      ensures updates > old(updates) || (cached == old(cached) && sslStore == old(sslStore)
                                         && secretIngressMap.v == old(secretIngressMap.v))
      ensures updates >= old(updates)
    {
      var ing := SetDefaultNGINXPathType(obj);
      NormalizeAfterDefaults(obj);
      if !IsValid(cfg.classes, ing) {
        return;
      }
      if HasCatchAll(ing) && cfg.classes.disableCatchAll {
        return;
      }
      Keep(ing);
    }

    method OnIngressDelete(obj: Ingress)
      requires RefsAgree() && CertsAgree()
      modifies this`cached, this`updates, secretIngressMap
      ensures cached == if Admissible(cfg.classes, obj) then old(cached) - {KeyOf(obj)} else old(cached)
      ensures RefsAgree() && CertsAgree()
      ensures updates > old(updates) || (cached == old(cached) && sslStore == old(sslStore)
                                         && secretIngressMap.v == old(secretIngressMap.v))
      ensures updates >= old(updates)
    {
      var ing := SetDefaultNGINXPathType(obj);
      if !IsValid(cfg.classes, ing) {
        return;
      }
      if HasCatchAll(ing) && cfg.classes.disableCatchAll {
        return;
      }
      cached := cached - {KeyOf(ing)};
      secretIngressMap.Delete(KeyOf(ing));
      updates := updates + 1;
    }

    method OnIngressUpdate(old_: Ingress, cur: Ingress)
      requires KeyOf(old_) == KeyOf(cur)
      requires KeyOf(cur) in cached <==> Admissible(cfg.classes, old_)
      requires KeyOf(cur) in cached ==> cached[KeyOf(cur)] == Normalize(old_)
      requires RefsAgree() && CertsAgree()
      modifies this`cached, this`sslStore, this`updates, secretIngressMap
      ensures cached == if Admissible(cfg.classes, cur) then old(cached)[KeyOf(cur) := Normalize(cur)]
                        else old(cached) - {KeyOf(cur)}
      ensures RefsAgree() && CertsAgree()
      ensures updates > old(updates) || (cached == old(cached) && sslStore == old(sslStore)
                                         && secretIngressMap.v == old(secretIngressMap.v))
      ensures updates >= old(updates)
    {
      var oldIng := SetDefaultNGINXPathType(old_);
      var curIng := SetDefaultNGINXPathType(cur);
      NormalizeAfterDefaults(old_);
      NormalizeAfterDefaults(cur);
      var validOld := IsValid(cfg.classes, oldIng);
      var validCur := IsValid(cfg.classes, curIng);
      if !validOld && validCur {
        if HasCatchAll(curIng) && cfg.classes.disableCatchAll {
          return;
        }
      } else if validOld && !validCur {
        OnIngressDelete(oldIng);
        return;
      } else if validCur && oldIng != curIng {
        if HasCatchAll(curIng) && cfg.classes.disableCatchAll {
          OnIngressDelete(oldIng);
          return;
        }
      } else {
        return;
      }
      Keep(curIng);
    }

    // -------------------------------------------------------------- secret events

    /** All that a secret handler finds in place: only the changed secret's certificate may be out of date. */
    ghost predicate AgreesExcept(key: string)
      reads this, secretIngressMap
    {
      && CacheNormal()
      && RefsAgree()
      && sslStore.Keys <= secrets.Keys
      && forall k :: k != key && Needed(k) ==> UpToDate(cfg, secrets, sslStore, k)
    }

    method OnSecretAdd(key: string)
      requires AgreesExcept(key)
      modifies this`cached, this`sslStore, this`updates
      ensures cached == old(cached) && CertsAgree()
      ensures updates >= old(updates)
      ensures sslStore != old(sslStore) ==> updates > old(updates)
    {
      if cfg.defaultSSLCertificate == key {
        SyncSecret(cfg.defaultSSLCertificate);
      }
      var ings := secretIngressMap.Reference(key);
      if |ings| > 0 {
        for i := 0 to |ings|
          invariant cached == old(cached)
          invariant Improves(cfg, secrets, old(sslStore), sslStore)
          invariant i > 0 || key == cfg.defaultSSLCertificate ==> UpToDate(cfg, secrets, sslStore, key)
          invariant updates >= old(updates)
        {
          assert Refers(secretIngressMap.v, key, ings[i]);
          var ing := cached[ings[i]];
          NormalizeNormal(ing);
          SyncIngress(ing);
          SyncSecrets(ing);
        }
        updates := updates + 1;
      }
      assert forall c :: Refers(secretIngressMap.v, key, c) ==> c in ings;
    }

    method OnSecretUpdate(key: string)
      requires AgreesExcept(key)
      modifies this`cached, this`sslStore, this`updates
      ensures cached == old(cached) && CertsAgree()
      ensures updates >= old(updates)
      ensures sslStore != old(sslStore) ==> updates > old(updates)
    {
      if cfg.defaultSSLCertificate == key {
        SyncSecret(cfg.defaultSSLCertificate);
      }
      var ings := secretIngressMap.Reference(key);
      if |ings| > 0 {
        for i := 0 to |ings|
          invariant cached == old(cached)
          invariant Improves(cfg, secrets, old(sslStore), sslStore)
          invariant i > 0 || key == cfg.defaultSSLCertificate ==> UpToDate(cfg, secrets, sslStore, key)
          invariant updates >= old(updates)
        {
          assert Refers(secretIngressMap.v, key, ings[i]);
          var ing := cached[ings[i]];
          NormalizeNormal(ing);
          SyncSecrets(ing);
          SyncIngress(ing);
        }
        updates := updates + 1;
      }
      assert forall c :: Refers(secretIngressMap.v, key, c) ==> c in ings;
    }

    method OnSecretDelete(key: string)
      requires key !in secrets
      requires CacheNormal() && RefsAgree()
      requires sslStore.Keys <= secrets.Keys + {key}
      requires forall k :: Needed(k) ==> UpToDate(cfg, secrets, sslStore, k)
      modifies this`cached, this`sslStore, this`updates
      ensures cached == old(cached) && CertsAgree()
      ensures updates >= old(updates)
      ensures updates == old(updates) <==> forall c :: !Refers(secretIngressMap.v, key, c)
      ensures updates == old(updates) ==> sslStore == old(sslStore) - {key}
    {
      sslStore := sslStore - {key};
      assert forall k :: UpToDate(cfg, secrets, old(sslStore), k) ==> UpToDate(cfg, secrets, sslStore, k);
      var ings := secretIngressMap.Reference(key);
      if |ings| > 0 {
        assert ings[0] in ings;
        for i := 0 to |ings|
          invariant cached == old(cached)
          invariant Improves(cfg, secrets, old(sslStore) - {key}, sslStore)
          invariant updates >= old(updates)
        {
          assert Refers(secretIngressMap.v, key, ings[i]);
          var ing := cached[ings[i]];
          NormalizeNormal(ing);
          SyncIngress(ing);
        }
        updates := updates + 1;
      }
    }

    // -------------------------------------------------------------- any sequence of events

    /** What the sync loop reads: the kept Ingresses and the certificates in use. */
    ghost function CertsInUse(): map<string, SSLCert>
      reads this, secretIngressMap
    {
      InUse(cfg, secretIngressMap.v, sslStore)
    }

    /** The default certificate's secret is removed while no Ingress refers to it. */
    ghost predicate SilentRemoval(e: Event)
      reads this, secretIngressMap
    {
      && e == RemoveSecret(cfg.defaultSSLCertificate)
      && cfg.defaultSSLCertificate in sslStore
      && forall c :: !Refers(secretIngressMap.v, cfg.defaultSSLCertificate, c)
    }

    lemma CacheIsNormal()
      requires Valid()
      ensures CacheNormal()
    {
      forall k | k in cached ensures KeyOf(cached[k]) == k && Normal(cached[k]) {
        NormalizeIsNormal(ingresses[k]);
      }
    }

    method DeliverSetIngress(cur: Ingress)
      requires Valid()
      modifies this`ingresses, this`cached, this`sslStore, this`updates, secretIngressMap
      ensures Valid()
      ensures ingresses == old(ingresses)[KeyOf(cur) := cur]
      ensures updates >= old(updates)
      ensures updates > old(updates) || (cached == old(cached) && CertsInUse() == old(CertsInUse()))
    {
      var key := KeyOf(cur);
      KeptAfterSet(cfg, ingresses, cur);
      if key in ingresses {
        var previous := ingresses[key];
        ingresses := ingresses[key := cur];
        OnIngressUpdate(previous, cur);
      } else {
        assert key !in cached;
        ingresses := ingresses[key := cur];
        OnIngressAdd(cur);
      }
    }

    method DeliverRemoveIngress(key: string)
      requires Valid()
      modifies this`ingresses, this`cached, this`updates, secretIngressMap
      ensures Valid()
      ensures ingresses == old(ingresses) - {key}
      ensures updates >= old(updates)
      ensures updates > old(updates) || (cached == old(cached) && CertsInUse() == old(CertsInUse()))
    {
      KeptAfterRemove(cfg, ingresses, key);
      if key in ingresses {
        var previous := ingresses[key];
        ingresses := ingresses - {key};
        OnIngressDelete(previous);
      } else {
        assert ingresses - {key} == ingresses;
      }
    }

    method DeliverSetSecret(key: string, data: string)
      requires Valid()
      modifies this`secrets, this`cached, this`sslStore, this`updates
      ensures Valid() && cached == old(cached)
      ensures secrets == old(secrets)[key := data]
      ensures updates >= old(updates)
      ensures updates > old(updates) || CertsInUse() == old(CertsInUse())
    {
      CacheIsNormal();
      if key !in secrets {
        secrets := secrets[key := data];
        OnSecretAdd(key);
      } else if secrets[key] != data {
        secrets := secrets[key := data];
        OnSecretUpdate(key);
      }
    }

    method DeliverRemoveSecret(key: string)
      requires Valid()
      modifies this`secrets, this`cached, this`sslStore, this`updates
      ensures Valid() && cached == old(cached)
      ensures secrets == old(secrets) - {key}
      ensures updates >= old(updates)
      ensures updates == old(updates) && CertsInUse() != old(CertsInUse()) <==> old(SilentRemoval(RemoveSecret(key)))
    {
      CacheIsNormal();
      RemovedUnneeded(cfg, secretIngressMap.v, sslStore, key);
      if key in secrets {
        secrets := secrets - {key};
        OnSecretDelete(key);
      } else {
        assert secrets - {key} == secrets;
      }
    }

    /** One informer notification: the informer's contents change, then the handler runs.  The only
        change to what the sync loop reads that sends no event is a silent removal. */
    method Deliver(e: Event)
      requires Valid()
      modifies this, secretIngressMap
      ensures Valid()
      ensures ingresses == IngressesAfter(old(ingresses), e) && secrets == SecretsAfter(old(secrets), e)
      ensures updates >= old(updates)
      ensures updates == old(updates) && (cached != old(cached) || CertsInUse() != old(CertsInUse()))
              <==> old(SilentRemoval(e))
    {
      match e
      case SetIngress(ingress) => DeliverSetIngress(ingress);
      case RemoveIngress(key) => DeliverRemoveIngress(key);
      case SetSecret(key, data) => DeliverSetSecret(key, data);
      case RemoveSecret(key) => DeliverRemoveSecret(key);
    }

    /** A removal is silent whenever the default certificate's secret parses and no kept Ingress refers to it. */
    method RemoveDefaultCertificate()
      requires Valid()
      requires var key := cfg.defaultSSLCertificate; key in secrets && cfg.parse(key, secrets[key]).Some?
      requires forall k :: k in cached ==> !RefersTo(cached[k], cfg.defaultSSLCertificate)
      modifies this, secretIngressMap
      ensures Valid() && ingresses == old(ingresses) && secrets == old(secrets) - {cfg.defaultSSLCertificate}
      ensures updates == old(updates) && CertsInUse() != old(CertsInUse())
    {
      assert Needed(cfg.defaultSSLCertificate);
      Deliver(RemoveSecret(cfg.defaultSSLCertificate));
    }
  }

  /** After every sequence of events the store agrees with the informers, which hold what the events left. */
  method Run(cfg: StoreConfig, events: seq<Event>) returns (store: K8sStore)
    ensures store.cfg == cfg && store.Valid()
    ensures store.ingresses == AllIngresses(events) && store.secrets == AllSecrets(events)
  {
    store := new K8sStore(cfg);
    for i := 0 to |events|
      invariant fresh(store) && fresh(store.secretIngressMap)
      invariant store.cfg == cfg && store.Valid()
      invariant store.ingresses == AllIngresses(events[..i]) && store.secrets == AllSecrets(events[..i])
    {
      store.Deliver(events[i]);
      assert events[..i + 1][..i] == events[..i];
    }
    assert events[..|events|] == events;
  }

  /** The shortest such history: the secret is added and removed again.  The certificates that were in use before the
      removal, and the number of events sent by then. */
  method LoseDefaultCertificate(cfg: StoreConfig, data: string)
    returns (store: K8sStore, ghost certificates: map<string, SSLCert>, sent: nat)
    requires cfg.parse(cfg.defaultSSLCertificate, data).Some?
    ensures store.cfg == cfg && store.Valid() && store.ingresses == map[] && store.secrets == map[]
    ensures cfg.defaultSSLCertificate in certificates && store.CertsInUse() == map[] && store.updates == sent
  {
    store := new K8sStore(cfg);
    store.Deliver(SetSecret(cfg.defaultSSLCertificate, data));
    assert store.Needed(cfg.defaultSSLCertificate);
    certificates, sent := store.CertsInUse(), store.updates;
    store.RemoveDefaultCertificate();
  }
}
