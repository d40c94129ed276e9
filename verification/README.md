# The ingress-nginx controller, modelled in Dafny

ingress-nginx turns Kubernetes Ingress objects into an nginx configuration and keeps a running nginx in step with
it.  This project models the decision-making core of the controller and proves what holds of it on every input
or over every run.  `dafny verify dfyconfig.toml` checks all of it.

The model follows the path of a change through the controller:

1. **The store** (`Normalization`, `ObjectRefs`, `Store`) reacts to informer events.  Its cache, its map from secrets
   to Ingresses and its certificates agree with the informers after any sequence of events.
2. **The queue** (`TaskQueue`) triggers syncs.  No accepted request is lost at any point of any run, although the
   worker skips old elements and requeues failed ones.
3. **The compiler** (`Upstreams`, `Servers`, `Placement`, `Ownership`, `HostLocations`, `Canary`, `CanaryOutcome`,
   `CanarySafety`, `CustomBackends`, `Compile`, `Assembly`, `MapOrder`) computes upstreams and servers from the
   Ingresses.  Which Ingress makes an upstream, a server, a certificate or a location, when merging canaries survives,
   where locations lead, when upstream names are unique: each is settled by an exact condition.  The order in which maps
   are walked does not show, unless names of custom upstreams collide with others.
4. **Routing** (`Routing`, `Selection`, `EndToEnd`) turns path types into nginx locations.  For every request, nginx
   selects the location that the Ingress path types select, exactly when trailing slashes are covered; composed with
   the compiler, a request reaches the upstream of the earliest Ingress with the best matching path.
5. **Syncing** (`Matching`, `Equality`, `DynamicConfig`, `Sync`, `DataPlane`, `Certificates`, `Hostnames`) decides
   between no action, dynamic pushes and a reload.  A sync keeps the data plane in step with the configuration that the
   controller remembers exactly when it is not torn, and over every run that tries torn syncs again until they go
   through, one that returns nil leaves nginx and Lua doing what was asked for exactly when it left nothing stale that
   the comparison of configurations does not look at.
6. **Details the rest relies on** (`Endpoints`, `AuthLocation`, `HashSizing`): de-duplication of endpoints, injective
   location names, and hash table sizes that fit every name.

`Witnesses`, `CanaryWitnesses` and `TypeWitnesses` hold Ingresses at which expected properties fail.
`Types`, `Strings` and `Sorting` hold the data model and small shared facts.

Code that works by changing things is imperative here too: methods with loops, and classes where the source shares
and updates objects (`NGINXController`, `Queue`, `K8sStore`, `ObjectRefMap`, `LocationObject`, `ConfigurationObject`).
Each method is proved against a function or predicate on values, and the properties are proved about that.
Map iteration, which Go leaves unordered, picks any element, so what is proved holds for every order.
The store lookups, certificate parsing, clock readings, and the outcomes of pushes and reloads are parameters.

## What is false of the code

Some properties one would expect do not hold.  For each there is an input at which it fails, an Ingress list or a
sequence of events where the property is about those, and the exact condition under which it holds.

- Equal configurations need not be equal the other way round: `SymmetricExactlyWhenDuplicateFree` makes an example
  from every configuration with duplicates.
- Greedy comparison of lists does not decide whether their elements can be paired up.  It does exactly for difunctional
  relations, those where x ~ y, x' ~ y and x ~ y' imply x' ~ y', equivalences among them: `GreedyMissesPairing`,
  `GreedyDecidesPairingIff`.
- The comparison of configurations leaves out path types, and some of what Lua reads.  A sync can therefore return nil
  and do nothing although nginx would route differently: `SwappedTypesRun`, for an Ingress with "/foo/" twice whose
  types are swapped.  `SelectAlikeIff` and `NilMeansServed` have the conditions.
- A push that fails after a reload or another push goes unnoticed, from every state, if the next sync asks for the
  configuration before: `TornSyncGoesUnnoticed`, `StepKeepsSyncIffNotTorn`.  Asking for the same one again heals it:
  `SuccessSyncsIff`, `PersistentRunsStayConsistent`.
- Trailing slashes can misroute requests or duplicate locations: `MisroutedStem`, `DuplicateWhenPrefixStem`,
  `FaithfulExactlyWhenCovered`.
- A rewrite target equal to the path itself rewrites nothing, but once the path gets its slash it turns every location
  of the server into a regular expression: `OwnTargetEnforces`, `EnforcedIff`.
- A path with several types can get the same location twice: `DuplicatedLocation`, `DistinctExactlyWhenCompatible`.
- Removing the default certificate's secret can send no event: `LoseDefaultCertificate`, `K8sStore.Deliver`.
- A canary that names another Ingress's catch-all backend as its own takes it over.  Merging can then delete an upstream
  that still serves, and end the process: `SharedCatchAllLost`, `SharedCatchAllPanics`, `MergingIsSafeIff`.  Sharing by
  paths alone is safe: `SharedPathsAreSafe`.
- Merging can also leave an upstream with an alternative that is gone: `DanglingAlternative`,
  `MergedAlternativesExistIff`.
- Custom default backends can share a name: `SharedCustomName`, `ReturnedNamesUniqueIff`.
- Redirects can listen on the same name: `RedirectsClash`, for the hosts "b" and "www.www.b",
  `RedirectSourcesDistinctIff`.
- An alias need not have the certificate of its own server, if another server has the alias too or redirects from it:
  `SharedAliasTakenOver`, `AliasKeepsOwnCertificateIff`.
- matchHostnames and IsValidHostname differ outside ASCII: `MatchersDisagree`, `MatchersAgree`.
- nextPowerOf2 is wrong for zero and past 32 bits, and otherwise right exactly without a 32-bit gap:
  `NextPowerOf2FailsPast32Bits`, `NextPowerOf2RightIff`.

## Model

| member | source | states |
|---|---|---|
| `Matching.Compare` | internal/sets/match.go:26-74 | the visited-array search answers as greedy pairing does; nil differs from empty |
| `Matching.GreedyDecidesPairing` | internal/sets/match.go:48-74 | for an equivalence, greedy search succeeds iff some bijection pairs equal elements |
| `Matching.GreedyDecidesPairingIff` | internal/sets/match.go:48-74 | greedy search decides pairing on all lists iff the relation is difunctional |
| `Matching.GreedyMissesPairing` | internal/sets/match.go:48-74 | wherever it is not, two lists of two elements that can be paired up and are not found equal |
| `Matching.GreedyIsMultisetEquality` | internal/sets/match.go:90-93 | for strings the search decides multiset equality |
| `Matching.SameReflexive` | internal/sets/match.go:26-74 | comparison of lists is reflexive if that of elements is an equivalence |
| `Matching.SameSymmetric` | internal/sets/match.go:26-74 | comparison of lists does not depend on which list comes first |
| `Matching.SameTransitive` | internal/sets/match.go:26-74 | comparison of lists is transitive, by composing the pairings |
| `Equality.CompareEachFound` | internal/ingress/types_equals.go:66-77 | the nested loop answers whether lengths agree and each element of the first list is found in the second |
| `Equality.ServerEqual` | internal/ingress/types_equals.go:265-330 | Server.Equal decides the model's server equality |
| `Equality.ConfigurationEqual` | internal/ingress/types_equals.go:24-84 | Configuration.Equal decides the model's configuration equality |
| `Equality.CertEquivalence` | internal/ingress/types_equals.go:542-569 | certificate equality is an equivalence |
| `Equality.BackendEquivalence` | internal/ingress/types_equals.go:87-139 | backend equality, with its nested list comparisons, is an equivalence |
| `Equality.L4ServiceEquivalence` | internal/ingress/types_equals.go:497-512 | stream service equality is an equivalence |
| `Equality.LocationEquivalence` | internal/ingress/types_equals.go:333-461 | location equality is an equivalence |
| `Equality.EachFoundPairs` | internal/ingress/types_equals.go:66-77 | finding each element of a duplicate-free list of the same length pairs up all elements |
| `Equality.EachFoundIsSetEquality` | internal/ingress/types_equals.go:282-297 | on duplicate-free lists the one-directional loop decides set equality |
| `Equality.ConfigurationReflexive` | internal/ingress/types_equals.go:24-84 | every configuration equals itself |
| `Equality.ConfigurationTransitive` | internal/ingress/types_equals.go:24-84 | configuration equality is transitive on all configurations |
| `Equality.ConfigurationSymmetric` | internal/ingress/types_equals.go:24-84 | it is symmetric on duplicate-free configurations, and keeps them duplicate-free |
| `Equality.SymmetricExactlyWhenDuplicateFree` | internal/ingress/types_equals.go:24-84 | a configuration is equal to others both ways round iff aliases and passthrough entries are duplicate-free |
| `Hostnames.ToLowerCaseASCII` | internal/ingress/controller/certificate.go:70-97 | with its early exit and byte loop it lowers exactly the ASCII letters |
| `Hostnames.IsValidHostname` | internal/net/ssl/ssl.go:473-488 | true iff some common name equals the host, or its first label's wildcard form, up to a case folding of characters |
| `Hostnames.MatchHostnames` | internal/ingress/controller/certificate.go:99-124 | true iff the labels match one by one, a first label of star matching any |
| `Hostnames.MatchersAgree` | internal/net/ssl/ssl.go:473-488 | on any two ASCII names, however other characters fold, matchHostnames on lowered names is IsValidHostname after trimming a final dot from non-empty names |
| `Hostnames.MatchersAgreeOnPlainNames` | internal/ingress/controller/certificate.go:99-124 | on non-empty ASCII names without a final dot the two functions are interchangeable |
| `Hostnames.MatchersDisagree` | internal/net/ssl/ssl.go:473-488 | outside ASCII they are not: the Kelvin sign is valid for k, and matchHostnames says no |
| `Certificates.BuildRedirects` | internal/ingress/controller/nginx.go:1137-1191 | the loop over servers yields the specified redirects |
| `Certificates.RedirectSourcesAreFree` | internal/ingress/controller/nginx.go:1137-1191 | no redirect starts from a hostname or at another's target, and every target is a hostname |
| `Certificates.RedirectCreatedIff` | internal/ingress/controller/nginx.go:1137-1191 | a server asking for a redirect is a target iff its www or bare counterpart is no hostname |
| `Certificates.RedirectSourcesDistinctIff` | internal/ingress/controller/nginx.go:1137-1191 | redirects listen on distinct names iff no two servers that ask for one are named n and www.www.n while www.n is no hostname and n does not start with www |
| `Certificates.RedirectsClash` | internal/ingress/controller/nginx.go:1137-1191 | servers "b" and "www.www.b" beside the default server that both ask for a redirect get the same source |
| `Certificates.ConfigureServer` | internal/ingress/controller/nginx.go:984-1008 | hostname and aliases of a server get its certificate, aliases only where it is valid for them |
| `Certificates.ConfigureCertificates` | internal/ingress/controller/nginx.go:978-1013 | the table posted is that of all servers, then of the redirects |
| `Certificates.HostnamesKeepOwnCertificate` | internal/ingress/controller/nginx.go:978-1013 | no alias or redirect overwrites a hostname's own entry |
| `Certificates.LastWriterGivesEntry` | internal/ingress/controller/nginx.go:978-1013 | a name that is no hostname has the entry of the last server that redirects from it, else of the last that has it as an alias |
| `Certificates.AliasKeepsOwnCertificateIff` | internal/ingress/controller/nginx.go:978-1013 | an alias keeps the entry of its own server iff no server writes it later, or the last to do so has a certificate for it with the same UID |
| `Certificates.SharedAliasTakenOver` | internal/ingress/controller/nginx.go:978-1013 | two servers with one alias and different certificates for it: the first loses the entry |
| `Certificates.TableCoherent` | internal/ingress/controller/nginx.go:978-1013 | every UID in the table other than the empty one has a key, which some server brought |
| `Certificates.HandshakeGetsOwnKey` | internal/ingress/controller/nginx.go:978-1013 | a handshake for a hostname gets that server's key material |
| `Certificates.EqualServersSameTable` | internal/ingress/controller/nginx.go:978-1013 | equal server lists post the same table |
| `DynamicConfig.ClearCertificates` | internal/ingress/controller/nginx.go:786-794 | replaces servers by copies without certificates and leaves the caller's servers alone |
| `DynamicConfig.ClearL4serviceEndpoints` | internal/ingress/controller/nginx.go:798-821 | erases endpoints and services from the copy's stream services only |
| `DynamicConfig.IsDynamicConfigurationEnough` | internal/ingress/controller/nginx.go:825-839 | decides equality of the static parts and changes neither configuration |
| `DynamicConfig.EqualIsDynamicEnough` | internal/ingress/controller/nginx.go:825-839 | equal configurations never need a reload |
| `DynamicConfig.StaticDuplicateFree` | internal/ingress/controller/nginx.go:825-839 | erasing the dynamic part keeps a configuration duplicate-free |
| `Sync.NGINXController.ConfigureDynamically` | internal/ingress/controller/nginx.go:843-869 | pushes the changed tables in order and stops at the first failure |
| `Sync.NGINXController.SyncIngress` | internal/ingress/controller/controller.go:126-207 | one sync is one step of the state machine, and returns nil when that says so |
| `Sync.StepKeepsSync` | internal/ingress/controller/controller.go:133-206 | a sync whose pushes succeed keeps tables and nginx.conf in step with runningConfig, even if its reload fails |
| `Sync.RunKeepsSync` | internal/ingress/controller/controller.go:133-206 | every run of such syncs keeps them in step |
| `Sync.PushOutcome` | internal/ingress/controller/nginx.go:843-869 | which failures of pushes leave the tables as they were |
| `Sync.StepKeepsSyncIffNotTorn` | internal/ingress/controller/controller.go:133-206 | a sync keeps the plane in step iff no push fails after an effect that is then forgotten |
| `Sync.RunWithoutTearing` | internal/ingress/controller/controller.go:133-206 | the invariant holds over every run without a torn sync |
| `Sync.SuccessSyncsIff` | internal/ingress/controller/controller.go:133-206 | from any state, a sync that does something and returns nil leaves the plane in step iff what it left alone was right |
| `Sync.AttemptSyncsOrStays` | internal/ingress/controller/controller.go:133-206 | another attempt for the configuration of a torn sync brings the plane in step, or leaves each table that of the one or the other configuration |
| `Sync.PersistentRunsStayConsistent` | internal/ingress/controller/controller.go:133-206 | so over every run in which a torn sync is tried again until it goes through |
| `Selection.EnforceRegexModifier` | internal/ingress/controller/template/template.go:398-422 | decides whether some location of the server needs a rewrite or uses regular expressions |
| `Selection.BuildLocationInjective` | internal/ingress/controller/template/template.go:424-441 | the text of a location directive, in each of its three forms, determines the directive |
| `Selection.SelectsIsNginxPicks` | internal/ingress/controller/template/template.go:424-441 | without patterns, what nginx selects among the directives is what the routing rows below speak of |
| `Selection.SelectAlikeIff` | internal/ingress/types_equals.go:333-461 | two lists of rooted locations that compare equal send every request to the same position iff their directives are patterns or they agree on which locations are exact |
| `Selection.EnforcedIff` | internal/ingress/controller/location.go:47-91 | on every list: the locations become patterns iff one needs a rewrite or uses regular expressions, or has its own path as rewrite target and is given a slash |
| `Selection.OwnTargetEnforces` | internal/ingress/controller/location.go:47-91 | every single location of the last kind does so in a list without patterns |
| `DataPlane.UnseenSuffices` | rootfs/etc/nginx/lua/balancer.lua:101-105 | backends that compare equal are alike to Lua if they agree on the kind of service, the first alternative and the uncompared settings |
| `DataPlane.UnseenIsNeeded` | rootfs/etc/nginx/lua/balancer.lua:101-105 | and only then, if their names tell them apart |
| `DataPlane.RendersIff` | internal/ingress/controller/template/template.go:424-441 | two configurations with equal static parts make nginx select and set up the same for every request iff they agree on directives and uncompared settings |
| `DataPlane.SkippedIsServedIff` | internal/ingress/controller/controller.go:138-141 | a plane in sync agrees with every configuration equal to the remembered one in all that is compared, and serves it iff Lua's unseen settings and the loaded nginx.conf are as it says |
| `DataPlane.AppliedIsServedIff` | internal/ingress/controller/controller.go:143-206 | a sync that does something, returns nil and ends in sync agrees with what was asked for, and serves it iff it reloaded or the loaded nginx.conf says the same |
| `DataPlane.NilMeansServed` | internal/ingress/controller/controller.go:133-206 | after any history in which torn syncs are tried again until they go through, whatever failed or was overlooked, a sync that returns nil leaves the plane agreeing in all that is compared, and serving what was asked for iff nothing stale was left |
| `DataPlane.UntornNilMeansServed` | internal/ingress/controller/controller.go:133-206 | in particular after any history without torn syncs |
| `DataPlane.StepIsInStep` | internal/ingress/controller/controller.go:133-206 | a reload puts nginx.conf in step again whatever was overlooked before, and a sync that overlooks nothing keeps it so |
| `DataPlane.CleanNilMeansServed` | internal/ingress/controller/controller.go:133-206 | after any untorn history that overlooked nothing since its last reload, nil means served iff the sync itself overlooks nothing |
| `DataPlane.TornSyncGoesUnnoticed` | internal/ingress/controller/controller.go:138-206 | from every state in sync and for every torn sync: it fails, a later sync that asks for the remembered configuration returns nil, and nginx.conf or a table is another |
| `Routing.RewriteOne` | internal/ingress/controller/location.go:47-91 | changes the location in place as specified and adds a new exact copy iff there is none |
| `Routing.UpdateServerLocations` | internal/ingress/controller/location.go:36-94 | returns the caller's own objects, rewritten, and fresh copies, in the specified order |
| `Routing.SplitPrefix` | internal/ingress/controller/location.go:96-106 | one path's elements are a prefix of another's iff they are equal or extended at a slash |
| `Routing.FaithfulExactlyWhenCovered` | internal/ingress/controller/location.go:36-106 | nginx selects what Ingress path types select for every request, without duplicate locations, iff every trailing slash is covered |
| `Routing.FaithfulWithoutTrailingSlashes` | internal/ingress/controller/location.go:36-106 | lists without trailing slashes route faithfully |
| `Routing.MisroutedStem` | internal/ingress/controller/location.go:47-106 | an uncovered slash misroutes the request for the path without it |
| `Routing.DuplicateWhenPrefixStem` | internal/ingress/controller/location.go:47-106 | a path declared with and without the slash gets the same location twice |
| `TaskQueue.Queue.EnqueueObject` | internal/task/queue.go:76-97 | adds an element stamped now, or a day ahead unless skippable, if the key can be computed |
| `TaskQueue.Queue.FetchElement` | internal/task/queue.go:111-117 | takes the first waiting element |
| `TaskQueue.Queue.StartSync` | internal/task/queue.go:118-126 | drops the element iff the last successful sync started after its timestamp |
| `TaskQueue.Queue.FinishSync` | internal/task/queue.go:129-140 | on failure the key is added again with a new timestamp, on success lastSync is when the sync started |
| `TaskQueue.StepKeepsInvariant` | internal/task/queue.go:76-142 | every step keeps each accepted request pending, in work, or served by a later successful sync |
| `TaskQueue.RunKeepsInvariant` | internal/task/queue.go:76-142 | every run keeps that, and lastSync never decreases |
| `TaskQueue.NoRequestIsLost` | internal/task/queue.go:76-142 | at every point of every run from the empty queue |
| `TaskQueue.DrainedMeansServed` | internal/task/queue.go:109-142 | once the queue is empty, a successful sync has started since every request |
| `Normalization.SetDefaultNGINXPathType` | internal/k8s/main.go:163-180 | gives every path without a type the default one and changes nothing else |
| `Normalization.NormalizeIsNormal` | internal/ingress/controller/store/store.go:635-655 | a stored Ingress has a type and a non-empty path everywhere |
| `Normalization.NormalizeNormal` | internal/ingress/controller/store/store.go:635-655 | normalizing leaves a normal Ingress as it is |
| `Normalization.NormalizeTwice` | internal/ingress/controller/store/store.go:635-655 | normalizing twice is normalizing once |
| `Normalization.NormalizeAfterDefaults` | internal/k8s/main.go:163-180 | defaults set by another component before do not change the result |
| `ObjectRefs.RelationDeterminesMap` | internal/ingress/controller/store/objectref.go:36-48 | without empty sets, the relation determines the map |
| `ObjectRefs.ObjectRefMap.Insert` | internal/ingress/controller/store/objectref.go:51-62 | adds exactly the pairs of this consumer and leaves no empty set |
| `ObjectRefs.ObjectRefMap.Delete` | internal/ingress/controller/store/objectref.go:65-75 | removes exactly the pairs of this consumer, and sets that become empty |
| `ObjectRefs.ObjectRefMap.Has` | internal/ingress/controller/store/objectref.go:83-91 | whether the reference has a consumer |
| `ObjectRefs.ObjectRefMap.HasConsumer` | internal/ingress/controller/store/objectref.go:94-104 | whether the consumer has a reference |
| `ObjectRefs.ObjectRefMap.Reference` | internal/ingress/controller/store/objectref.go:107-116 | lists exactly the consumers of a reference |
| `ObjectRefs.ObjectRefMap.ReferencedBy` | internal/ingress/controller/store/objectref.go:119-130 | lists exactly the references of a consumer |
| `Store.SecretReferences` | internal/ingress/controller/store/store.go:669-709 | lists the secrets an Ingress refers to, by annotation and TLS section |
| `Store.K8sStore.SyncSecret` | internal/ingress/controller/store/backend_ssl.go:37-71 | stores a certificate equal to the parse of the secret, and notifies iff something changed |
| `Store.K8sStore.SyncIngress` | internal/ingress/controller/store/store.go:635-665 | caches the normalized Ingress |
| `Store.K8sStore.UpdateSecretIngressMap` | internal/ingress/controller/store/store.go:669-709 | replaces this Ingress's references by its current ones |
| `Store.K8sStore.SyncSecrets` | internal/ingress/controller/store/store.go:732-737 | brings the certificates of the Ingress's secrets up to date and loses none |
| `Store.K8sStore.OnIngressAdd` | internal/ingress/controller/store/store.go:348-371 | re-establishes cache, references and certificates after an addition |
| `Store.K8sStore.OnIngressDelete` | internal/ingress/controller/store/store.go:311-345 | re-establishes cache and references after a deletion |
| `Store.K8sStore.OnIngressUpdate` | internal/ingress/controller/store/store.go:373-412 | re-establishes all three after an update, also one that changes class or becomes a catch-all |
| `Store.K8sStore.OnSecretAdd` | internal/ingress/controller/store/store.go:416-441 | re-establishes the certificates after a secret appears |
| `Store.K8sStore.OnSecretUpdate` | internal/ingress/controller/store/store.go:442-469 | re-establishes the certificates after a secret changes |
| `Store.K8sStore.OnSecretDelete` | internal/ingress/controller/store/store.go:470-506 | re-establishes the certificates after a secret is removed |
| `Store.K8sStore.Deliver` | internal/ingress/controller/store/store.go:311-507 | any event keeps the store valid, and changes what the sync loop reads without notice iff it removes an unreferenced default certificate |
| `Store.Run` | internal/ingress/controller/store/store.go:311-507 | after every sequence of events the store agrees with what the informers hold |
| `Store.K8sStore.RemoveDefaultCertificate` | internal/ingress/controller/store/store.go:470-506 | removing the default certificate's secret sends no event and changes what is in use, whenever it parses and no kept Ingress refers to it |
| `Store.LoseDefaultCertificate` | internal/ingress/controller/store/store.go:416-506 | the shortest such history: the secret is added and removed |
| `HashSizing.ComputeNextPowerOf2` | internal/ingress/controller/nginx.go:725-735 | the reassignments of v compute the function that the next three rows are about |
| `HashSizing.NextPowerOf2RightIff` | internal/ingress/controller/nginx.go:725-735 | it is the least power of two not below v iff v is positive and v-1 has no gap of 32 zero bits below a set bit |
| `HashSizing.NextPowerOf2UpTo32Bits` | internal/ingress/controller/nginx.go:725-735 | it is right from 1 to 2^32 |
| `HashSizing.NextPowerOf2FailsPast32Bits` | internal/ingress/controller/nginx.go:725-735 | it is wrong on every 2^n + 1 with n at least 32 |
| `HashSizing.ServerNameHashSizes` | internal/ingress/controller/nginx.go:479-510 | the loops compute the longest name and the total length of hostnames |
| `HashSizing.EveryNameFits` | internal/ingress/controller/nginx.go:479-500 | no hostname, alias or redirect source is longer than the longest name counted |
| `HashSizing.BucketHoldsEveryName` | internal/ingress/controller/nginx.go:501-510 | the bucket size is a least power of two or a larger configured value, and holds every name |
| `Endpoints.JoinHostPortInjective` | internal/ingress/controller/endpoints.go:103-107 | the host and port joined as a key determine both, IPv6 addresses included |
| `Endpoints.KeyIdentifiesSocket` | internal/ingress/controller/endpoints.go:103-114 | two addresses have the same key iff they are the same socket |
| `Endpoints.AddSubset` | internal/ingress/controller/endpoints.go:83-117 | one subset adds its selected sockets that were not seen before |
| `Endpoints.GetEndpoints` | internal/ingress/controller/endpoints.go:36-117 | returns the selected sockets in first-seen order; for an ExternalName service its name, unless local or invalid; nothing for a failed lookup |
| `Endpoints.FirstSeenIsFirstOccurrences` | internal/ingress/controller/endpoints.go:83-117 | that is the list of first occurrences |
| `Endpoints.SelectedIff` | internal/ingress/controller/endpoints.go:83-117 | a socket is selected iff some subset holds its address and its non-zero port, of the protocol and of the name if one is asked for |
| `Endpoints.EachSocketOnce` | internal/ingress/controller/endpoints.go:83-117 | each socket that the subsets offer for the protocol and port name is returned exactly once, and no other |
| `AuthLocation.EncodeWithoutPadding` | internal/ingress/controller/template/template.go:454-456 | removing the padding of base64url leaves its unpadded form |
| `AuthLocation.UnpaddedInjective` | internal/ingress/controller/template/template.go:454-456 | unpadded base64url, section 5 of RFC 4648, is injective |
| `AuthLocation.BuildAuthLocationInjective` | internal/ingress/controller/template/template.go:443-464 | auth location names determine path and path type |
| `AuthLocation.LocationNamesAreDistinct` | internal/ingress/controller/template/template.go:424-464 | the locations updateServerLocations returns get pairwise distinct directives and auth names when they are faithful |
| `Upstreams.CreateUpstreams` | internal/ingress/controller/controller.go:779-911 | the nested loops build the specified table; a catch-all backend replaces, a path does not |
| `Upstreams.CreatedHoldsUsed` | internal/ingress/controller/controller.go:779-911 | besides the default upstream the table holds exactly the upstreams the Ingresses use, each under its name |
| `Upstreams.LastCatchAllWins` | internal/ingress/controller/controller.go:779-911 | an upstream named by catch-all backends is the one that the last of them makes |
| `Upstreams.FirstPathWins` | internal/ingress/controller/controller.go:779-911 | any other is the one that the first path naming it makes |
| `Upstreams.DefaultUpstreamStays` | internal/ingress/controller/controller.go:779-911 | the default upstream is unchanged unless a catch-all backend has its name |
| `Upstreams.CreatedNoServer` | internal/ingress/controller/controller.go:779-911 | if canaries share no name with others, an upstream has no server iff a canary uses it |
| `Servers.CreateHosts` | internal/ingress/controller/controller.go:1036-1131 | the first pass gives every host of a non-canary Ingress a server with a root location |
| `Servers.FirstIngressMakesServer` | internal/ingress/controller/controller.go:1057-1131 | the server of a host is made by the earliest non-canary Ingress with a rule for it, and there is none without such an Ingress |
| `Servers.FirstTLSGivesCertificate` | internal/ingress/controller/controller.go:1133-1229 | a server has the certificate that the earliest non-canary Ingress with a TLS section and a rule for its host brings, else none; the default server keeps its own |
| `Servers.FirstAliasesWin` | internal/ingress/controller/controller.go:1133-1254 | a server has the aliases of the earliest non-canary Ingress that gives any with a rule for its host, without those that are hostnames |
| `Servers.CreateServers` | internal/ingress/controller/controller.go:1009-1257 | the three passes build the specified servers, in whatever order the alias map is walked |
| `Servers.CleanAliasesAre` | internal/ingress/controller/controller.go:1231-1254 | the aliases kept are those that are no server's name, each once |
| `Servers.CreatedServersAreClean` | internal/ingress/controller/controller.go:1009-1257 | servers are filed under their names, and no alias is a hostname |
| `Servers.HostsAdded` | internal/ingress/controller/controller.go:1057-1131 | every host of a non-canary Ingress has a server |
| `Servers.RootsLeadToCatchAlls` | internal/ingress/controller/controller.go:1036-1131 | root locations lead to the default upstream or to a catch-all backend of a non-canary Ingress |
| `Servers.RootsLeadToPrimaries` | internal/ingress/controller/controller.go:1036-1131 | in particular to one that a non-canary Ingress uses |
| `Placement.PlaceOne` | internal/ingress/controller/controller.go:578-640 | the search loop with its breaks adds, replaces or keeps as specified |
| `Placement.PlaceIngresses` | internal/ingress/controller/controller.go:514-680 | the loops place all paths that count, and no upstream lookup fails |
| `Ownership.PlaceAllByHost` | internal/ingress/controller/controller.go:514-640 | each server is built from the claims on it alone |
| `Ownership.PlacedLocations` | internal/ingress/controller/controller.go:579-640 | the locations of a server in closed form |
| `HostLocations.PlacedAre` | internal/ingress/controller/controller.go:514-640 | for every host whose root is free, the locations compiled from any Ingress list in closed form |
| `HostLocations.ClaimsCount` | internal/ingress/controller/controller.go:514-640 | the claims on a host are exactly the paths for it whose upstream has a server |
| `Ownership.LocationIffClaimed` | internal/ingress/controller/controller.go:579-640 | there is a location for exactly the claimed paths and types, and for the root |
| `Ownership.DistinctExactlyWhenCompatible` | internal/ingress/controller/controller.go:579-640 | locations are distinct iff no two claims share a path and a type that was not the first one there |
| `Witnesses.DuplicatedLocation` | internal/ingress/controller/controller.go:579-640 | one Ingress that declares a path as Exact and twice as Prefix gets the Prefix location twice |
| `Ownership.EarliestClaimOwns` | internal/ingress/controller/controller.go:579-640 | a location of the first type for its path belongs to the earliest claim on it |
| `Ownership.PrefixOwnership` | internal/ingress/controller/controller.go:568-640 | with Prefix paths only there is one location per path, owned by the earliest claim |
| `Ownership.SortedLocationsFirstMatch` | internal/ingress/controller/controller.go:755-764 | the two stable sorts permute, order by length and then path, and put a longest match first |
| `Canary.MergeAlternativeBackend` | internal/ingress/controller/controller.go:1307-1325 | adds the alternative unless it is there, and reports whether the primary has a server |
| `Canary.MergeInto` | internal/ingress/controller/controller.go:1344-1367 | the location loop with its break, and the deletion after it |
| `Canary.MergeAlternativeBackends` | internal/ingress/controller/controller.go:1331-1418 | merging one canary, panics included, is as specified |
| `Canary.MergeAllIsMergeUses` | internal/ingress/controller/controller.go:688-692 | merging all canaries is trying their backends in order, or a panic if a rule has no paths |
| `Canary.MergeUsesMerges` | internal/ingress/controller/controller.go:1302-1418 | on any input alternatives stay distinct and never name their own upstream, only upstreams with a server other than the default gain any, and nothing else changes |
| `Canary.AlternativesTraceToCanaries` | internal/ingress/controller/controller.go:1331-1418 | every alternative gained was asked for by a canary at a place this upstream serves |
| `CanaryOutcome.SparingOutcome` | internal/ingress/controller/controller.go:1331-1418 | if no serving upstream is deleted: no panic, exactly the names never deleted are left, and each name that serves nothing is listed exactly where it matched before being deleted |
| `CanaryOutcome.SeparatedOutcome` | internal/ingress/controller/controller.go:1331-1418 | if canaries own no location this holds of all names, and those deleted are those that missed |
| `CanaryOutcome.AlternativesExistIff` | internal/ingress/controller/controller.go:1331-1418 | if no serving upstream is deleted, every alternative exists iff no canary is attached by one of its backends and deleted by another |
| `CanaryOutcome.ServingUpstreamsKeptIff` | internal/ingress/controller/controller.go:1331-1418 | on any input: no panic and no serving upstream lost, iff no canary backend names one and finds neither a match nor its own location |
| `CanarySafety.PathWithServerStays` | internal/ingress/controller/controller.go:571-640 | a path on a named host whose upstream has a server never deletes it: it is placed, and the search finds it |
| `CanarySafety.SharedPathsAreSafe` | internal/ingress/controller/controller.go:683-692 | merging is safe for Ingresses whose canaries take over no catch-all backend of others, however they share paths |
| `CanarySafety.MergedAlternativesExistIff` | internal/ingress/controller/controller.go:683-692 | whenever merging is safe, every alternative in the merged table exists iff no canary is attached by one of its backends and deleted by another |
| `CanaryWitnesses.SharedCatchAllLost` | internal/ingress/controller/controller.go:779-911 | three Ingresses, one a canary with the catch-all backend of another: its upstream is deleted although it serves a host |
| `CanaryWitnesses.SharedCatchAllPanics` | internal/ingress/controller/controller.go:1331-1418 | with one more canary on that host the controller panics |
| `CanaryWitnesses.DanglingAlternative` | internal/ingress/controller/controller.go:1371-1417 | a canary with two paths of which one is served: its upstream is deleted and stays listed as an alternative |
| `CustomBackends.CustomizeLocation` | internal/ingress/controller/controller.go:706-741 | a location takes the custom backend's name, and gets a copied upstream with its endpoints, iff it asks for one that has endpoints |
| `CustomBackends.CustomizeServer` | internal/ingress/controller/controller.go:704-743 | all locations of a server switch as specified, with one copied upstream for each that asks |
| `CustomBackends.CustomizeBackends` | internal/ingress/controller/controller.go:694-749 | whatever the order of the two maps, the locations come out the same, and the list holds every upstream and one custom upstream per deserving location |
| `CustomBackends.CustomLocationsLeadToListed` | internal/ingress/controller/controller.go:694-749 | a location and its custom default backend lead to listed upstreams |
| `CustomBackends.NamesUniqueIff` | internal/ingress/controller/controller.go:720-727 | listed names are unique iff no two locations deserve custom upstreams of one name and no such name is taken |
| `Compile.PlacedLocationsLeadToUpstreams` | internal/ingress/controller/controller.go:507-683 | before merging, every location leads to an upstream in the table |
| `Compile.PlacedLeadToPrimaries` | internal/ingress/controller/controller.go:507-683 | if canaries share no name with others, every location leads to an upstream of the others |
| `Compile.MergingIsSafeIff` | internal/ingress/controller/controller.go:683-692 | merging survives with every location's upstream in place, iff canary rules have paths and no canary backend is lost on an upstream that serves |
| `Compile.SeparateNamesAreSafe` | internal/ingress/controller/controller.go:683-692 | merging is safe if canaries share no upstream name with other Ingresses |
| `Compile.PlacedAreTidy` | internal/ingress/controller/controller.go:507-683 | after placement servers are filed under their names, keep clean aliases and start with a root location |
| `Compile.GetBackendServers` | internal/ingress/controller/controller.go:507-775 | the whole computation panics exactly if merging does; otherwise its servers are fit, and if merging is safe every location returned leads to an upstream returned |
| `Compile.ReturnedLocationsLeadToUpstreams` | internal/ingress/controller/controller.go:694-775 | the last stage keeps it true that every location leads to an upstream |
| `Compile.ReturnedNamesUniqueIff` | internal/ingress/controller/controller.go:694-775 | the exact condition for unique upstream names in the result |
| `Witnesses.SharedCustomName` | internal/ingress/controller/controller.go:694-749 | one Ingress with a custom default backend and two paths: two upstreams returned share a name |
| `Compile.CompiledIsFit` | internal/ingress/controller/controller.go:753-775 | hostnames returned are distinct and include the default one, the aliases of a server repeat neither each other nor any hostname, and every server has a root location |
| `Assembly.GetConfiguration` | internal/ingress/controller/controller.go:443-502 | the loops assemble the specified configuration and the set of all hostnames and aliases |
| `Assembly.AssembledIsDuplicateFree` | internal/ingress/controller/controller.go:443-502 | the configuration is duplicate-free, so that equality is symmetric on it |
| `Assembly.PassthroughIffAsked` | internal/ingress/controller/controller.go:474-490 | a host is listed for TLS passthrough iff its server asks for it |
| `Assembly.CompiledNamesKeepCertificates` | internal/ingress/controller/nginx.go:978-1013 | in every compiled configuration a hostname has its own server's certificate, and an alias iff nobody writes it later or with the same UID |
| `Assembly.CompiledRunsServe` | internal/ingress/controller/controller.go:126-207 | both nil-means-served results over any run of syncs of compiled configurations, which are always duplicate-free |
| `MapOrder.ListingsPair` | internal/ingress/controller/controller.go:694-749 | without a collision of custom names, any two orders of the maps list the same upstreams, each as often |
| `MapOrder.ServersCorrespond` | internal/ingress/controller/controller.go:753-775 | any two orders list the servers alike |
| `MapOrder.MapOrderIsUnseen` | internal/ingress/controller/controller.go:138-141 | a controller that runs one result skips any other for the same Ingresses, so the order of maps never causes a sync |
| `MapOrder.CollisionDependsOnOrder` | internal/ingress/controller/controller.go:706-741 | on a collision a location gets two copied upstreams in one order and one in the other, and exactly when |
| `TypeWitnesses.SwappedTypesGoUnnoticed` | internal/ingress/controller/controller.go:138-141 | from every state in step: when the Ingress swaps the types of its two "/foo/" paths, the sync for what is compiled from it returns nil and does nothing, and nginx goes on sending "/foo/" to the other service |
| `TypeWitnesses.SwappedTypesRun` | internal/ingress/controller/controller.go:126-207 | the run of two syncs from the start: the first serves the Ingress, the second returns nil and does not serve the edited one |
| `EndToEnd.CompatibleOwnership` | internal/ingress/controller/controller.go:579-640 | without duplicate locations each belongs to the earliest claim on its path and type |
| `EndToEnd.RequestReachesOwner` | internal/ingress/controller/location.go:36-94 | nginx selects a location for every request, and forwards to the upstream of the best matching path's earliest claim |
| `EndToEnd.HostRequestsReachOwners` | internal/ingress/controller/controller.go:443-775 | for every host whose paths are plain, and every request to it, nginx selects among the compiled locations one that forwards to the right path's upstream; the default server is included unless a catch-all backend took its root |

## Left out

- EndToEnd.HostRequestsReachOwners: excludes the default server once a catch-all backend has taken its root, and hosts with rewrites or regular expressions, whose patterns nginx matches by other rules.
- DataPlane.NilMeansServed: that something stale shows is stated for configurations whose backends have distinct names and whose paths are rooted and leave some character unused, since otherwise no request may tell two locations apart; that nothing stale means served needs none of this.
- Selection.SelectAlikeIff: which patterns match which requests is any relation; some character must occur in no path, because prefixes for all characters after a path would hide it.
- DataPlane.RendersIff: nginx.conf is what is said of the locations, their settings and the server; the text of the template is not modelled.
- Compile.ReturnedLocationsLeadToUpstreams: the converse is not stated, because a custom upstream may happen to take the name of a lost one.
- CanarySafety.SharedPathsAreSafe: sufficient only; the exact condition is MergingIsSafeIff, which speaks of the placed servers.
- MapOrder.CollisionDependsOnOrder: says it of one location and two upstreams; how a whole list comes out then is not stated.
- HashSizing.NextPowerOf2RightIff: integers are unbounded, so overflow of 64-bit values past 2^62 is not modelled; no name length comes near.
- Hostnames.IsValidHostname: folding is by any function of single characters, as strings.EqualFold folds; what is said of certificate tables holds for every such function, and the syncs fix one of them.
- Equality.BackendEquivalence: option structs with their own Equal methods are one comparable value each, as are those of locations, servers and certificates.
- Endpoints.GetEndpoints: parsing an external name as an address or a domain name is a parameter.
- Store.K8sStore.Deliver: handlers run one at a time; the handlers for ConfigMaps, Services and Endpoints are not modelled.
- Normalization.SetDefaultNGINXPathType: the source writes the defaults into the informer's own object; the model returns a new one.
- Sync.PushOutcome: a failed push is taken to leave its table unchanged; HTTP, reload and template rendering are one success or failure each, and shutdown is a flag.
- Compile.GetBackendServers: session affinity, client certificates and proxy certificates of servers, which the placement loop also copies, are part of bundled options; servers and locations are values there, each reached through one key, so aliasing is not captured.
- Servers.FirstTLSGivesCertificate: finding the certificate for a host in the TLS sections is a parameter.
- Parsing of annotations, the ConfigMap and command-line flags: independent field reads.
- checkOverlap and the admission webhook.
- PEM and X.509 handling, metrics, leader election, status updates, TCP passthrough proxying, the kubectl plugin.
