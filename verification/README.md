# Verified model of the metadata proxy

A Dafny 4.11 model of the metadata proxy: the caches that map network addresses and pids to
instances over one shared store, the rules by which one instance may create another, the
configuration calls, the key-value store with its inverted index and its file format, and the
decoder of property names in the Hadoop image. `dafny verify dfyconfig.toml` checks everything.

| file | what it models |
|---|---|
| `Principals.dfy` | the records: addresses with port ranges, networks, instances, statuses |
| `Text.dfy` | splitting, joining and decimal notation |
| `PrincipalMap.dfy` | range identifiers in 64-bit arithmetic, the interval tree, the class `Pmap` |
| `NetMap.dfy` | keys and records of the shared store as text, the class `RiakConn` |
| `PrincipalCache.dfy` | the steps of one cache on values, the class `CacheImpl` |
| `CacheRuns.dfy` | any number of caches over one store, all interleavings, all store failures |
| `Delegation.dfy` | the request handlers, and what holds over whole creation histories |
| `Batching.dfy` | the configuration calls and the service they send to |
| `KvIndex.dfy` | the inverted index on values, histories of updates |
| `KvFile.dfy` | the text format, reading any text, the round trip |
| `KvStore.dfy` | the class `Store` |
| `KvWatcher.dfy` | the background saver interleaved with the store's operations |
| `EnvName.dfy` | the three rewrites of the property-name decoder |

How the pieces fit:

- A class follows the object of the program that updates its fields, and each of its methods is
  proved against a function on values (`PutView`, `AddrStep`, `PutState`, `Restored`, ...). The
  statements over runs and histories are lemmas about those functions.
- `Pmap` keeps its nested trees; the ghost field `ranges` is their flat reading, and `Valid` says
  that the trees list exactly those ranges. The tree of an external library is a finite map keyed
  by start and identifier: an equal key is replaced, an inverted range is refused, and a query
  gives all overlapping elements in an arbitrary order.
- The store may fail any request, and a failed write may or may not have taken effect
  (`WriteOutcome`). Answers of the store and orders of results are parameters of a step
  (`AddrChoice`, `Event`), so a lemma over runs holds for all of them.
- A cache is locked during an operation, but the store is shared: a pid lookup that misses makes two
  store requests, and other caches may act between them. It is two steps (`ByPid`, `Resume`).
- Ports are 32-bit signed numbers, as they are parsed; an address given without an upper port has
  the upper port -1. Nothing is assumed about them unless a statement says so.

Where statements carry conditions of their own:

- A lookup dereferences the pid of a range without a check. `NilFreeRunIff` says for all runs when a
  range can be left without its owner's instance: exactly when some delete names a pid that another
  range of its cache belongs to. `MismatchedDeleteCrashes` and `MovedPidCrashes` are failing cases.
  That the instance found is also the right one needs more: `PutKeepsSoundIff` and
  `DelKeepsSoundIff` give the exact condition for each step, and `RightInstance` the guarantee over
  all runs in which every pid has one home address.
- A target named without an upper port passes the range rule from outside the range
  (`OpenTargetPasses`); `Delegation.WithinPorts` says for which targets the rule means what it says.
- The handlers take a request for the provider's if the pid of its instance is the provider's name,
  and nothing keeps a creation from giving an instance that name (`GrantedPidUnchecked`).
  `ReachIsEnforcedIff` says for which instances the control rule keeps to their reach, and
  `NameEscapes` is a history that leaves it. `HistoryIsSound` and `RemovalIsAuthorized` therefore bind
  the asking instance unless it has that name, `InstancesCreateInReach` all instances as long as none
  was created with it, and the statements about descendants follow a chain of askers as far as the
  first that has it. Only reading such a chain off the recorded parents needs unique pids
  (`ParentIsAsker`).
- A delete removes the pid it names, whichever range it removes (`KnownAfterDeleteIff`), and a lazy
  deletion by address names the address: the instance stays known by its pid
  (`LazyByAddressStaysKnown`).
- Saving and restoring gives back the data exactly when no key or value contains the separator or a
  newline and no key has an empty list of values (`KvFile.RoundTripIff`).
- A delete does not mark a store as changed and a failed write is not repeated, so the saver's
  guarantee is one-sided (`Durability`); `DeletedKeyReturns` and `FailedWriteForgotten` show why.
- The list of key-value pairs is quoted without escaping: it reads back as its values if none has a
  quote itself (`Batching.ListReadsBack`).
- The documentation of the image says that `__` in a variable name stands for `_`. The third rewrite
  turns that underscore into a dot as well; the model follows the code, and
  `EnvName.RoundTripIff` says for which names the documented encoding is undone.

## Model

| member | source | states |
|---|---|---|
| PrincipalMap.ComputeIDIsOneReduction | proxy/pmap.go:59-65 | the shifted and wrapped partial words add up to one reduction modulo 2^64, for negative ports too |
| PrincipalMap.ComputeIDInjective | proxy/pmap.go:59-65 | ranges with 0 <= lport <= rport <= 65535 at any addresses have equal identifiers only if they are equal, despite the carry of rport + 1 |
| PrincipalMap.ForceLookupTakenOnce | proxy/pmap.go:14-16 | the identifier 0 reserved for lookups belongs to one proper range only, 255.255.255.255:65535-65535 |
| PrincipalMap.SameIdIff | proxy/pmap.go:59-65 | for all parsable ports: two ranges share an identifier exactly when their fields before reduction are equal or one word apart; at one IP, exactly when start and end in their overlapping fields add up to the same |
| PrincipalMap.ComputeIDCollides | proxy/pmap.go:59-65 | so outside 16-bit ports two ranges at one IP can share an identifier: 0-65535 and 1-(-1) do |
| Principals.ContainsIsInterval | proxy/newapi.go:148-152 | a network contains the 2^(32 - bits) addresses from its base on, and no others |
| PrincipalMap.KeyDeterminesRange | proxy/cache.go:63-68 | at one IP start and identifier determine the range for all parsable ports, so inserting a range again never makes a second copy |
| PrincipalMap.TreeGet | proxy/pmap.go:135-139 | a query yields every overlapping element and nothing else, as many as there are |
| PrincipalMap.InsertLists | proxy/pmap.go:86-100 | inserting a range keeps the tree an exact listing of the registered ranges with their owners, replacing the owner of a range already there |
| PrincipalMap.DeleteLists | proxy/pmap.go:124-131 | deleting a range removes it and no other from the tree |
| PrincipalMap.NestedAnswerUnique | proxy/pmap.go:143-152 | when the ranges holding a port are nested, the lookup's answer does not depend on the order of the matches |
| PrincipalMap.Pmap.constructor | proxy/pmap.go:50-56 | a new map has no ranges and no instances |
| PrincipalMap.Pmap.CreatePrincipalPP | proxy/pmap.go:82-112 | registers the range with its owner unless it is inverted, and files the instance under its pid in either case |
| PrincipalMap.Pmap.DeletePrincipal | proxy/pmap.go:124-131 | removes exactly the one range, leaves the pid table alone, and reports whether the IP was known and the range not inverted |
| PrincipalMap.Pmap.GetIndex | proxy/pmap.go:132-166 | yields a range holding the port with no other such range strictly inside it, nothing exactly when no range holds the port; the final re-check cannot fail |
| PrincipalMap.Pmap.PutCachedInstance | proxy/pmap.go:184-189 | the whole new contents: range, owner and pid entry |
| PrincipalMap.Pmap.DelCachedInstanceAlt | proxy/pmap.go:195-200 | the whole new contents: without the range and without the pid, whether or not they belong together |
| NetMap.KeyRoundTrip | proxy/riak.go:105-107 | scanning a printed key gives back both numbers, for all integers |
| NetMap.NamesDistinct | proxy/riak.go:192-201 | distinct addresses are stored under distinct bucket and key |
| NetMap.ParsePrintedIp | proxy/riak.go:310-314 | a bucket name parses to the address it was printed from |
| NetMap.ParsePrintedCidr | proxy/riak.go:45-54 | a printed network parses to itself and is never the empty text that means none |
| NetMap.CredRoundTrip | proxy/riak.go:29-78 | credentials survive printing and parsing although the tag names of pid and parent are crossed |
| NetMap.RecordRoundTrip | proxy/riak.go:261-322 | a stored record comes back from the search index with the same IP, ports, pid, parent, type and network |
| NetMap.PartialRecord | proxy/riak.go:261-322 | from an index that lacks tags of a record nothing comes back without either pid, a normal instance without the type, and none has a network without that tag |
| NetMap.HitIsMatch | proxy/riak.go:324-326 | selecting stored documents by bucket or by pid tag selects exactly the records at the IP or with the pid |
| NetMap.RiakConn.constructor | proxy/riak.go:100-103 | a connection to a store that may already hold any records |
| NetMap.RiakConn.PutNetIDMap | proxy/riak.go:192-214 | overwrites the one record if the write takes effect, and reports failures |
| NetMap.RiakConn.GetNetIDMap | proxy/riak.go:216-246 | the record of exactly this address, none, or a failure |
| NetMap.RiakConn.DelNetIDMap | proxy/riak.go:248-259 | removes the one record if the write takes effect, and reports failures |
| NetMap.RiakConn.GetAllNetID | proxy/riak.go:324-358 | exactly the records at the IP, each once, in some order, or a failure |
| NetMap.RiakConn.SearchIDNet | proxy/riak.go:360-392 | exactly the records with the pid, each once, in some order, or a failure |
| PrincipalCache.Copy | proxy/cache.go:12-24 | the copy equals the instance |
| PrincipalCache.CacheImpl.constructor | proxy/cache.go:47-54 | a new cache is empty and uses the given connection |
| PrincipalCache.CacheImpl.ReloadCache | proxy/cache.go:56-73 | caches every record the store lists for the IP, or fails and changes nothing |
| PrincipalCache.CacheImpl.GetInstanceFromNetMap | proxy/cache.go:107-142 | answer and new contents are those of `AddrStep`: from the cache if a range holds the port, else after a reload, else refused |
| PrincipalCache.CacheImpl.GetInstanceFromID | proxy/cache.go:75-105 | answer and new contents are those of `PidStart` and `PidFinish`: from the cache, else by search and reload of the IP found, the store being asked and answering as it can |
| PrincipalCache.PidLookupDecided | proxy/cache.go:75-105 | a pid lookup gives the cache's entry if there is one; else a stored record with the pid exactly if the store has one and answers both requests, 404 exactly if it has none and answers, 500 exactly if it does not answer |
| PrincipalCache.CacheImpl.PutInstance | proxy/cache.go:164-179 | the instance is cached whatever the write's outcome, the store changes if the write takes effect, the status tells a reported failure |
| PrincipalCache.CacheImpl.DelInstance | proxy/cache.go:181-193 | range and pid leave the cache whatever the write's outcome, the record leaves the store if the write takes effect |
| CacheRuns.CrashIff | proxy/cache.go:107-142 | an address lookup can dereference a missing instance exactly when the owner of an innermost cached range with the port is not in the pid table; one that has to reload never does, in any state |
| CacheRuns.WriteOutcomes | proxy/cache.go:164-193 | a put or delete changes its cache the same way whatever becomes of its write, and the store as a successful one does, unless the write fails without effect |
| CacheRuns.AddrLookupDecided | proxy/cache.go:107-142 | an address lookup answers with the owner of an innermost cached range if any cached range holds the port; else with a record of the pid of an innermost stored one if the store answers and has one, 404 exactly if it has none, 500 exactly if it does not answer |
| CacheRuns.PidStepDecided | proxy/cache.go:75-105 | in any system of caches the first step of a pid lookup finds exactly what the pid table has, refuses with 404 exactly if the store answers and has no such record, with 500 exactly if it does not answer, and otherwise has a stored record of the pid to reload |
| CacheRuns.DelKeepsNilFreeIff | proxy/pmap.go:195-200 | a delete leaves a range without its owner's instance exactly when another range belongs to the pid it names |
| CacheRuns.NilFreeStep | proxy/cache.go:107-193 | puts and reloads never leave a range without its owner's instance, a delete does exactly when another range of its cache belongs to the pid it names, and from such states no answer dereferences a missing instance |
| CacheRuns.NilFreeRunIff | proxy/cache.go:107-193 | any number of caches over any store, any pids, interleaving and failures: no range is ever without its owner's instance exactly when every delete names a pid that no other range of its cache belongs to |
| CacheRuns.NeverNull | proxy/cache.go:137-140 | in every such run no lookup dereferences a missing instance |
| CacheRuns.MovedPidCrashes | proxy/cache.go:137-140 | a pid put at two addresses is safe until its delete, which names it with its current address and leaves the first range without an instance |
| CacheRuns.PutKeepsSoundIff | proxy/pmap.go:184-189 | if every owner's instance has its range as address, a put keeps it so exactly when no other range belongs to the pid it caches |
| CacheRuns.DelKeepsSoundIff | proxy/pmap.go:195-200 | if every owner's instance has its range as address, a delete keeps it so exactly when no other range belongs to the pid it names |
| CacheRuns.MismatchedDeleteCrashes | proxy/cache.go:137-140 | a delete naming another instance's pid leaves a lookup that dereferences a missing instance |
| CacheRuns.HomedStep | proxy/cache.go:164-193 | every step that names pids with their home address keeps all caches, pending lookups and the store homed |
| CacheRuns.RightInstance | proxy/cache.go:107-160 | with one home address per pid, any number of caches, any interleaving and any store failures: what an address lookup finds holds the queried address, and what a pid lookup finds has the pid |
| CacheRuns.RangesMirrorStore | proxy/cache.go:56-193 | whatever pids are used, a sole writer's registered ranges are in the store with their owners, an IP once reloaded stays registered in full, and lookups there settle on an innermost range of the store or on none when it has none |
| CacheRuns.CacheRefinesStore | proxy/cache.go:56-193 | with one home per pid, the sole writer's cache also has the store's instance for every range, and lookups at a reloaded IP return the record of an innermost range of the store |
| CacheRuns.ReloadCovers | proxy/cache.go:63-69 | after a reload every insertable range the store has at the IP is registered |
| CacheRuns.ReadYourWrites | proxy/cache.go:169-176 | after a put, failed or not, lookups of its ports through that cache are answered from the cache without asking the store and never refused, until that cache deletes the range, whatever the other caches do |
| CacheRuns.NotFoundIff | proxy/cache.go:118-135 | 404 exactly when the store answers and neither the cache nor the store has a range with the port |
| CacheRuns.LookupsAgree | proxy/cache.go:137-160 | after a found address lookup the pid lookup of its result gives the same instance from the cache alone |
| CacheRuns.ReloadByPidCachesAll | proxy/cache.go:95-103 | a pid lookup that reloads leaves every instance of the IP cached under its pid and every range registered, even if other caches wrote in between |
| Delegation.Authenticate | proxy/newapi.go:36-60 | a principal with the noauth prefix is refused unseen, one that reads as an address is looked up by address, any other by pid |
| Delegation.NewAuth | proxy/newapi.go:62-114 | the provider is accepted by name without a lookup; any other principal, or the remote address if none is named, must be found, and the refusal or crash of its lookup is the outcome; an unreadable remote address is refused |
| Delegation.HeadUnseen | proxy/newapi.go:36-40 | the provider's name is accepted and names with the noauth prefix are turned away without a lookup |
| Delegation.HeadByPid | proxy/newapi.go:43-51 | a pid is accepted as the cache's instance, or a stored one with that pid, exactly if the remote address can be read (else 400); 404 if neither has it, 500 if the store is needed and does not answer |
| Delegation.HeadByAddr | proxy/newapi.go:52-60 | an address is accepted, by its IP and lower port, as the owner of an innermost cached range, or as a stored instance of that owner's pid, exactly if the remote address can be read; a crash if the owner is missing, 404 if no range holds the port, 500 if the store is needed and does not answer |
| Delegation.MetadataRequest.constructor | proxy/newapi.go:74-113 | the request carries its cache, and the identity and range of the instance found for its principal, or the provider's name; creations are normal without a network by default |
| Delegation.MetadataRequest.AuthzControl | proxy/newapi.go:119-154 | reads the target as an address, or looks it up as a pid where allowed, which may reload the cache, and decides by provider, range at the same IP, or the network of a VM |
| Delegation.AuthorizeIff | proxy/newapi.go:140-153 | the control rule grants exactly: everything under the provider's name, targets at the same IP with both bounds inside, and for a VM every IP from its network's base on within the 2^(32 - bits) addresses of the network; all else is 401 |
| Delegation.GrantedIff | proxy/newapi.go:167-231 | exactly which creation requests are granted, and the instance each creates |
| Delegation.DeletesIff | proxy/newapi.go:272-346 | exactly which deletion requests of the three kinds are granted, and at which address |
| Delegation.LazyByPid | proxy/newapi.go:125-137 | a lazy deletion of a pid deletes at the address of the cache's instance, or of a stored one with that pid, exactly if the requester is entitled to that; 404 if neither has it, 500 if the store is needed and does not answer |
| Delegation.MetadataRequest.PreInstanceCallHandler | proxy/newapi.go:167-180 | decides on the third value, or the one a VM creation points to; too few values index out of range |
| Delegation.MetadataRequest.PreVMInstanceCallHandler | proxy/newapi.go:215-231 | only the provider, with a parsable network and address; then type and network are set |
| Delegation.MetadataRequest.PreLazyDeletionHandler | proxy/newapi.go:327-340 | decides on the first value as an address or as a pid it looks up, and sets target and defaults when it agrees |
| Delegation.MetadataRequest.PostInstanceCreationHandler | proxy/newapi.go:182-202 | registers the instance with the principal as parent when forwarding succeeded, and nothing otherwise |
| Delegation.MetadataRequest.PostInstanceDeletionHandler | proxy/newapi.go:204-213 | deletes the target range together with the pid the request names when forwarding succeeded |
| Delegation.Create | proxy/newapi.go:248-270 | a whole creation call registers exactly the instance the decision grants, and nothing when it is refused or forwarding fails |
| Delegation.Delete | proxy/newapi.go:272-346 | a whole deletion call, the lazy one with its pid lookup: the cache may be reloaded first, then exactly the range the decision allows goes, together with the pid in the first value, and nothing when it is refused or forwarding fails |
| Delegation.HistoryIsSound | proxy/newapi.go:119-202 | in every reachable state all cached, stored and vouched-for instances were created; a creation without an asking instance names the provider as parent; any other was asked for by an earlier creation that it names as parent and, unless that has the provider's name as its pid, is a normal instance in its range or its network |
| Delegation.VmAuthority | proxy/newapi.go:215-231 | in every reachable state what the store or a cache holds has a network exactly if it is of type vm, and every VM was created in the provider's name: by the provider itself, unless an instance was created with that name as its pid |
| Delegation.InstancesCreateInReach | proxy/newapi.go:119-202 | in every reachable state in which no instance was created with the provider's name as its pid, every creation asked for by an instance is normal, has an earlier creation as asker and parent, and lies in its range or its network; pids need not be unique |
| Delegation.EntitledCreates | proxy/newapi.go:119-202 | the converse, in every reachable state: whatever a looked-up instance is entitled to it is granted, and the instance is logged, cached under its pid, and stored if the write succeeds |
| Delegation.VmFillsNetwork | proxy/newapi.go:147-152 | in every reachable state a looked-up VM has a network and is granted every address in it |
| Delegation.ReachIsEnforcedIff | proxy/newapi.go:140-153 | for any instance: all addresses the control rule grants it are in its range or its network exactly if its pid is not the provider's name or it is a VM whose network is everything |
| Delegation.GrantedPidUnchecked | proxy/newapi.go:182-202 | the pid of a new instance plays no part in the decision |
| Delegation.NameEscapes | proxy/newapi.go:140-142 | a history of five moves: a normal instance creates one in its range with the provider's name as its pid, and that one, looked up by its address, creates a VM at any address with any network |
| Delegation.RemovalIsAuthorized | proxy/newapi.go:119-154 | in every history a record leaves the store only by a deletion request for its address; an instance that asked was created earlier and, unless it has the provider's name as its pid, has the address in its range or network; so it always does if no instance has that name |
| Delegation.DeletedPidUnchecked | proxy/newapi.go:204-213 | the pid a range deletion names plays no part in the decision |
| Delegation.KnownAfterDeleteIff | proxy/pmap.go:195-200 | after a delete the cache answers a lookup of a pid it had just as before exactly if the delete named another pid |
| Delegation.LazyDeletion | proxy/newapi.go:204-213 | a lazy deletion by pid deletes that pid and its instance's range; one by address names the address text as the pid, so all instances whose pid does not read as an address stay known |
| Delegation.LazyByAddressStaysKnown | proxy/newapi.go:204-213 | an instance that lazily deletes itself by its address loses its range and is still found by its pid |
| Delegation.ParentIsAsker | proxy/newapi.go:191-199 | with unique pids a chain of recorded parents is a chain of instances that asked, and conversely |
| Delegation.ChildIsContained | proxy/newapi.go:144-152 | what an instance not named like the provider asked for has it as parent, is normal and in its reach |
| Delegation.NormalDescendants | proxy/newapi.go:144-146 | every transitive descendant of a normal instance, none before it named like the provider, is at its IP inside its range: by its bounds, with all its ports, and with both ends if they are in order |
| Delegation.VmDescendants | proxy/newapi.go:144-152 | every transitive descendant of a VM, none before it named like the provider, is inside its range in the same sense, or in its network |
| Delegation.CidrRuleUsedOnce | proxy/newapi.go:147-152 | on such a chain of creations only the first step can leave its creator's range, and then the creator is a VM, created in the provider's name |
| Delegation.DelegationContainment | proxy/newapi.go:119-202 | containment of all descendants down to the first named like the provider, by bounds and by ports, in every reachable state of every history, whether or not pids are unique |
| Delegation.WithinPorts | proxy/newapi.go:144-146 | a target has all its ports in every range that admits it; it has both its ends in every range that admits it exactly when the request names them in order |
| Delegation.OpenTargetPasses | proxy/server.go:47-59 | a target without an upper port passes the range rule from outside the range |
| Batching.BatchesConserve | proxy/newapi.go:372-398 | the batches in order are the values |
| Batching.BatchSizes | proxy/newapi.go:374-397 | all batches but the last have ten values, the last at most ten, and some if there are any |
| Batching.PostFullBatches | proxy/newapi.go:428-452 | sends the full batches in order up to the first failure, and leaves the last batch for the request itself |
| Batching.PostConfig | proxy/newapi.go:372-403 | a prefix of the posts has been sent, all of them on success, up to the first failing reply otherwise |
| Batching.CreateSelfConfig | proxy/newapi.go:366-407 | the same for the principal's own configuration |
| Batching.CreateInstanceConfig | proxy/newapi.go:409-460 | a short list indexes out of range, a failed lookup is passed on, anyone but the instance's creator is refused, all without sending anything; then the posts go out under the instance's pid |
| Batching.CreatorConfigures | proxy/newapi.go:418-423 | the name an instance was created under may configure it, and no other |
| Batching.ConfigConserves | proxy/newapi.go:372-402 | for any number of values the payloads concatenate to them on success and to a prefix of them on failure |
| Batching.RequestShapes | proxy/newapi.go:374-401 | every request is for the instance with at most ten values, full ones under a fixed URL, and the number in every URL is half the number of its values, rounded down, which counts the pairs of the last one exactly when the total is even |
| Batching.UnpairPairs | proxy/newapi.go:488-492 | the pairs are all the values, each once and in order |
| Batching.ListReadsBack | proxy/newapi.go:488-494 | for any even number of values free of quotes, the list text cut at its quotes has the values as every other piece, in order, and the brackets and commas of a list of pairs between them |
| Batching.KvList | proxy/newapi.go:479-494 | an argument list exactly for an even number of at least four values; its text, read at its quotes, is a list of two-element lists whose elements are the values in order, unless a value has a quote itself |
| KvIndex.RemoveFirstAt | proxy/internal/pkg/kvstore/store.go:207-211 | cutting at the first match is removing the first occurrence |
| KvIndex.RemoveFirstsFilter | proxy/internal/pkg/kvstore/store.go:217-225 | removing the first occurrence as often as there are occurrences filters them all out |
| KvIndex.ScanCount | proxy/internal/pkg/kvstore/store.go:271-284 | a key occurs in the scan as often as the value is in its list |
| KvIndex.ClearedIsScan | proxy/internal/pkg/kvstore/store.go:217-225 | after the removal loops each entry is the scan without the key, duplicates in its list included |
| KvIndex.PutKeepsIndex | proxy/internal/pkg/kvstore/store.go:285-294 | a write moves its key to the end of the order and keeps every entry equal to the scan |
| KvIndex.DelKeepsIndex | proxy/internal/pkg/kvstore/store.go:254-259 | a delete takes its key out of the order and keeps every entry equal to the scan |
| KvIndex.WriteOrderOk | proxy/internal/pkg/kvstore/store.go:227-236 | the order lists exactly the keys whose last operation is a write, by the time of that write |
| KvIndex.IndexEqualsScan | proxy/internal/pkg/kvstore/store.go:204-294 | in every reachable indexed store each entry is the scan of the live keys in the order of their last write, with multiplicities |
| KvStore.Store.constructor | proxy/internal/pkg/kvstore/store.go:134-139 | a new store is empty and counts as changed |
| KvStore.Store.RemoveOneIndex | proxy/internal/pkg/kvstore/store.go:204-215 | the loop removes the first occurrence of the key from the one entry |
| KvStore.Store.RemoveIndexes | proxy/internal/pkg/kvstore/store.go:217-225 | one removal for each value of the key |
| KvStore.Store.Put | proxy/internal/pkg/kvstore/store.go:227-236 | the whole new state, the write order, and the index invariant |
| KvStore.Store.Get | proxy/internal/pkg/kvstore/store.go:238-252 | the first value, or the empty text |
| KvStore.Store.Del | proxy/internal/pkg/kvstore/store.go:254-259 | the whole new state: key and entries gone, not marked as changed |
| KvStore.Store.Keys | proxy/internal/pkg/kvstore/store.go:261-269 | the live keys, each once |
| KvStore.Store.GetKey | proxy/internal/pkg/kvstore/store.go:271-284 | the scan of the live keys in write order; a key is in it exactly if the value is in its list; nothing without an index |
| KvStore.Store.PutValues | proxy/internal/pkg/kvstore/store.go:285-300 | the whole new state, the write order, and the index invariant |
| KvStore.Store.Save | proxy/internal/pkg/kvstore/store.go:312-324 | the text is a line for every live key, each once, in some order; the store counts as unchanged |
| KvStore.Store.RestoreLines | proxy/internal/pkg/kvstore/store.go:336-353 | the line loop ends and has applied the writes of all well-formed lines in order |
| KvStore.Store.Restore | proxy/internal/pkg/kvstore/store.go:326-360 | for any text the state is the replay of its well-formed lines, unchanged in its own eyes, with a valid index |
| KvStore.RestartKeepsIndexing | proxy/internal/pkg/kvstore/store.go:109-119 | a restart indexes exactly the stores that were indexed, unless an indexed store's name is some text and the marker |
| KvStore.FileNamesCollideIff | proxy/internal/pkg/kvstore/store.go:109-115 | two stores share a file exactly if they are the same, or an indexed one has the other's name with the marker |
| KvFile.RestoreAnyText | proxy/internal/pkg/kvstore/store.go:326-360 | for any text: with its parts between newlines as lines, a key is live exactly if some line has a separator and the key before it, its values are the other parts of the last such line, and the index is right, for the keys in the order of those lines |
| KvFile.OpsByLines | proxy/internal/pkg/kvstore/store.go:336-353 | the writes of a restore are those of the lines between the newlines, one for each line with a separator; the last line need not end in a newline |
| KvFile.MalformedIsSkipped | proxy/internal/pkg/kvstore/store.go:345-347 | a line without a separator leaves nothing in the store, with and without its newline |
| KvFile.RestoredIsClean | proxy/internal/pkg/kvstore/store.go:339-344 | whatever is read could be saved and read again |
| KvFile.RoundTripIff | proxy/internal/pkg/kvstore/store.go:312-360 | restoring what any save wrote gives back the data exactly when it is clean |
| KvFile.EmptyListReturns | proxy/internal/pkg/kvstore/store.go:317 | a clean key saved with an empty list comes back with the empty text as its one value |
| KvFile.RoundTripIndex | proxy/internal/pkg/kvstore/store.go:312-360 | for clean data the restored index has every key under every value as often as the saved one |
| KvWatcher.InvThroughout | proxy/internal/pkg/kvstore/store.go:70-89 | in every interleaving, with failing writes: an unchanged store has lost only deleted keys since the snapshot, and the pending text or the intact file is that snapshot's |
| KvWatcher.Durability | proxy/internal/pkg/kvstore/store.go:70-89 | when the store is unchanged, nothing is pending and the last write succeeded, a restart gives what was last saved: every live key with its values, any other key it gives was deleted since, and it is exact just when no saved key was deleted since |
| KvWatcher.CleanStoreIsDurable | proxy/internal/pkg/kvstore/store.go:170-197 | the same for new and restarted stores whose callers write clean keys and values |
| KvWatcher.DeletedKeyReturns | proxy/internal/pkg/kvstore/store.go:254-259 | a saved key deleted afterwards leaves the store unchanged in its own eyes and comes back after a restart |
| KvWatcher.FailedWriteForgotten | proxy/internal/pkg/kvstore/store.go:321-323 | after a failed write the store counts as unchanged while its file has none of its data |
| EnvName.DecodeIsByRuns | hadoop-image/hadoop/entrypoint.sh:26 | the three rewrites turn a maximal run of k underscores into k/3 dashes and a dot if 3 does not divide k, and nothing else |
| EnvName.DecodedHasNoUnderscore | hadoop-image/hadoop/entrypoint.sh:26 | no decoded name contains an underscore |
| EnvName.RoundTripIff | hadoop-image/README.md:34-42 | decoding the documented encoding of any name gives it back exactly when it has no underscore and no dot directly before a dot or a dash |

## Left out

- HTTP routing, JSON text, response messages and the client that forwards requests: forwarding is a status, and in the configuration calls a log of posts.
- Regular expressions and network parsing of request fields: the handlers take the two parsers as parameters (`Parsers`).
- The inside of the interval tree library: an empty range (rport = lport - 1) is inserted and deleted like any other; it answers no lookup.
- The scan of a store key: it is modelled without leading spaces, which printed keys never have.
- NetMap.HitIsMatch: the query is modelled as equality on the stored documents; the source pastes the pid unquoted into the query text (`proxy/riak.go:361`), so a pid with characters of the query syntax selects otherwise.
- Search indexing delay and paging of the store: a search that succeeds lists exactly the current records.
- Sharing of pointers and slices between results and the cache or the store: results are values.
- The deprecated instance creation call: it cuts the values to two and then reads the third, so it never registers anything.
- The forwarding of the original request after a key-value configuration; only the list built for it is modelled.
- The choice of a cache by hash: any request may use any cache.
- Endorsement, membership and check calls: they only look instances up and forward.
- The insertion counter of the principal map and the parent name a request carries along: neither is read by the modelled code.
- Calls that go on without an authenticated principal: `NewAuth` is the head of the calls that demand one.
- The pod maps, group ports, timing and logging; the cluster scripts, `shield/` and container files.
- The registry of named stores and the walk over the store directory; naming of the files is modelled.
- The nesting of the restore's loops: the line loop, the handling of one line and the trimming of its parts are separate methods here.
