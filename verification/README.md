# Verified model of the Antares NGSI-LD broker

Antares is an NGSI-LD broker after ETSI GS CIM 009 V1.9.1, written in Rust. This project models, in Dafny, the parts of it
that are algorithms or protocols, and proves what those parts are for. A file is a module; `dafny verify dfyconfig.toml`
checks them all.

- **Module cycle gate** (`Names`, `Graphs`, `Tarjan`, `Gate`; `dev/module-graph.py`). The recursive search with its numbers,
  low links, stack and pop loop, over edge sets iterated in any order. Its components partition the nodes into the classes
  of mutual reachability and come out callees first; the gate fails exactly when some cycle of modules is larger than its
  cap.
- **Version downgrade** (`Conformance`, `Payloads`, `Discovery`; `conformance.rs`). The rewriting of an Entity for an
  earlier version, clause 4.3.6.8. The result conforms at every depth, the 203 flag is exact, and it is said exactly when
  two downgrades of a node, of an Entity and of a whole payload are one. The laws are about normalized nodes; what is
  served in the same shape and is none is in `Discovery`.
- **Depth scan** (`Depth`; `bounds.rs`). The one-pass byte scan equals the nesting of the value for every legal spelling of
  every JSON value, escapes and blanks included.
- **Attribute writes** (`Instances`, `EntityAttrs`, `Combine`; `attrs.rs`, `federation.rs`). The merge by datasetId as a
  fold over a map, the five operations on a stored Entity and every run of them, and the one answer of clause 6.3.17 for a
  write that is partly forwarded.
- **Batches** (`Rounds`, `Batch`, `Remote`, `Delete`; `batch.rs`). Rounds of bulk store calls mean the same as the array
  executed one entry after the other (clause 4.6.6), for any repetition of ids; S and E account for every local and every
  forwarded outcome.
- **Circuit breakers** (`Egress`; `egress.rs`). Two bounded maps shared by all tenants: what one tenant's calls can cost the
  others, isolation below the ceiling, when a destination is held open and when a registration is in cooldown.
- **Registrations** (`Registry`, `Walk`, `Protocol`, `Bookkeeping`, `Sweeps`, `Progress`, `Redirects`, `Exclusion`; `registry.rs`,
  `csource.rs`). The matching of two registrations, the paged walk over documents that are removed, rewritten and inserted under it, the
  entity-conflict check, and the write protocol: any number of creates and updates under the lock, with deletes, sweeps,
  the counters that forwards book, a clock and clients that go away, in any interleaving.

Where the source changes state the model does too: classes with the source's own fields, loops with invariants. A method is
proved against a function or a predicate on values, and the theorems are about that function or predicate. In `Protocol` a
client is a program counter and a step is one store call or one visit.

What a clause asks is said twice where it matters: once as the code computes it, and once by the names and numbers the
clause gives, in ghost predicates no code calls (`AsClause`, `MergedAsClause`, `WriteAsClause`, `HeldAfter`, `InTheWay`,
`LadderEnd`). The methods promise the second, and lemmas join the two.

Eight places where the code does not do what its documentation says, or what one would expect of it:

- Clause 4.3.6.3, quoted at crates/antares-api/src/csource.rs:807-809, forbids a second exclusive registration for one
  Entity id and Attribute. The code compares the declared entity types first, so two such registrations with different
  types do not match (`Registry.TypesKeepApart`). `Registry.ExclusivesMatch` says exactly when two do, and
  `Registry.SharedIsMatch` and `Exclusion.ExclusivesApart` give the clause in full for a registration that declares no type.
- A downgrade below version 1.3 keeps the first entry of a type list, and that entry may itself be a list; a second
  downgrade then shortens it again (`Conformance.NestedTypeExample`). `Conformance.EntityComposes` and
  `Conformance.EntityAmended` hold exactly when no such list is nested first.
- The same shortening can rename an Entity to a Notification, and a second downgrade then amends inside its Attribute `data`
  (`Payloads.RenamedExample`). `Payloads.PayloadComposes` says exactly when two downgrades of a payload are one.
- The comment at crates/antares-api/src/conformance.rs:208-212 says that the resources which are no Entities pass through
  untouched. The code knows six type names; the type and Attribute discovery resources of clauses 5.2.24 to 5.2.28 are not
  among them and are read as Entities, so before 1.3 each of their lists is cut to its first element and the answer becomes
  203 (`Discovery.TypeListExample`). `Discovery.DiscoveryUntouched` says exactly when they pass.
- A simplified Entity holds values where a normalized one holds Attributes, and the code does not tell them apart: before
  1.3 a value that is a list is cut to one element (`Discovery.SimplifiedCut`).
- The comment at crates/antares-api/src/csource.rs:1330-1332 calls an update's read and write atomic. A forward books its
  outcome on the same document without the lock (crates/antares-store/src/lib.rs:224-253), so an update may store counters
  that its checks never saw (`Bookkeeping.ForwardedBetween`). Every other member is the checked one
  (`Protocol.UpdateWritesChecked`), and the document is the checked one altogether exactly when no forward was booked
  between the read and the write (`Bookkeeping.ExactUnlessForwarded`). No check reads those members.
- The sweep collects ids of expired registrations and deletes them without looking again (csource.rs:733-763), so it may
  remove a live registration that took the id in between (`Sweeps.SweepTakesLiveExample`);
  `Sweeps.TakesLiveExactlyWhen` says exactly when. A purge under the lock never does (`Sweeps.LockedPurgeTakesNone`).
- A redirect is checked against exclusives by all its ids and its first pattern only, and a selector without either is lost
  beside one that has any (csource.rs:868-899). `Redirects.CoveredIsReached` and `Redirects.NotSimple` say which information
  elements the code reads as the clause does.

## Model

| member | source | states |
|---|---|---|
| Tarjan.Sccs | dev/module-graph.py:54-75 | the emitted lists partition the nodes, each is one whole class of mutual reachability, and no edge leads from a component to one emitted after it, whatever order the edge sets are iterated in |
| Tarjan.Search.Visit | dev/module-graph.py:58-71 | a visit numbers what it newly reaches, leaves a low link that bounds what the stack still holds, and emits whole components only |
| Tarjan.Search.Leave | dev/module-graph.py:66-71 | the stack is cut exactly at a root, and a node that is no root stays on it above a node it reaches |
| Tarjan.Search.Scan | dev/module-graph.py:61-65 | after the edge loop every successor is visited and the low link bounds them all |
| Tarjan.Search.Follow | dev/module-graph.py:62-65 | one edge: an unvisited node is visited, a node on the stack lowers the low link, an emitted one changes nothing |
| Tarjan.Search.Pop | dev/module-graph.py:67-71 | the stack returns to where it was below the root and one list is emitted |
| Tarjan.SegmentIsComponent | dev/module-graph.py:66-71 | what is popped with a root is mutually reachable and misses no node that is |
| Graphs.SharedComponent | dev/module-graph.py:55 | two nodes share a component exactly when each reaches the other |
| Graphs.SameComponents | dev/module-graph.py:61 | two runs that iterate the edge sets differently emit the same components |
| Gate.LongestFirst | dev/module-graph.py:97 | the first of the longest components |
| Gate.LongestIsLargest | dev/module-graph.py:97-98 | the longest component is the largest set of mutually reachable modules there is |
| Gate.Run | dev/module-graph.py:91-107 | every crate's largest cycle is recorded and exactly those above their cap are red; a crate without modules ends the run |
| Gate.GateFails | dev/module-graph.py:108-116 | the exit code is 1 exactly when some crate has a cycle larger than its baseline, or than 1 where it has none; otherwise it is 0, and always under `--update` |
| Gate.UpdateThenPass | dev/module-graph.py:108-116 | a baseline that `--update` wrote passes on the crates it was written from |
| Conformance.AmendAttrStep | crates/antares-api/src/conformance.rs:69-205 | the rewriting of one Attribute node in place is the amendment of clause 4.3.6.8, and its flag is true exactly when the node differs, which is exactly when it did not conform |
| Conformance.AmendedAsClause | crates/antares-api/src/conformance.rs:74-203 | the amendment member by member, by the names of Tables 4.3.6.8-1 to 4.3.6.8-3: which type falls back when, to what, where its payload goes, which members go, which instance is kept, and that every other member is amended by itself |
| Conformance.AmendConforms | crates/antares-api/src/conformance.rs:69-205 | no member, Attribute type or multi-instance array introduced after the version is left at any depth |
| Conformance.AmendFixpoint | crates/antares-api/src/conformance.rs:69-205 | a node is left as it is exactly when it conforms |
| Conformance.AmendComposes | crates/antares-api/src/conformance.rs:69-205 | amending a node to a version and then to an earlier one is amending it to the earlier one |
| Conformance.NamesSurvive | crates/antares-api/src/conformance.rs:164-203 | every sub-Attribute keeps its name, none appears, and each is amended by itself |
| Conformance.EntityNamesSurvive | crates/antares-api/src/conformance.rs:55-64 | every Attribute of an Entity keeps its name and none appears |
| Conformance.PayloadCarried | crates/antares-api/src/conformance.rs:101-135 | a LanguageProperty before 1.4, and a JsonProperty, VocabProperty, ListProperty or ListRelationship before 1.8, becomes a Property or Relationship whose `value` or `object` is the stored payload, which is gone from its own member |
| Conformance.PreviousUntouched | crates/antares-api/src/conformance.rs:156-163 | the `previous*` members travel as they are |
| Conformance.ValuesUntouched | crates/antares-api/src/conformance.rs:156-196 | the value of a type the version knows travels as it is |
| Conformance.AmendEntityStep | crates/antares-api/src/conformance.rs:31-66 | the flag of an Entity's amendment is true exactly when the Entity differs |
| Conformance.EntityAmendedAsClause | crates/antares-api/src/conformance.rs:31-66 | the amendment of an Entity member by member, by the names of Table 4.3.6.8-1 and Note 1 |
| Conformance.EntityFixpoint | crates/antares-api/src/conformance.rs:31-66 | an Entity is left as it is exactly when it uses nothing introduced after the version |
| Conformance.EntityAmended | crates/antares-api/src/conformance.rs:31-66 | the amended Entity conforms if and only if no list was nested first in its type list |
| Conformance.EntityComposes | crates/antares-api/src/conformance.rs:31-66 | two downgrades are one if and only if no list is nested first in the type list |
| Conformance.NestedTypeExample | crates/antares-api/src/conformance.rs:46-54 | a document for which two downgrades to 1.0 keep less than one |
| Conformance.AmendPayloadStep | crates/antares-api/src/conformance.rs:227-250 | the flag that turns 200 into 203 is true exactly when the payload differs |
| Conformance.AmendsEntities | crates/antares-api/src/conformance.rs:213-250 | the amendment of a payload amends what is read as an Entity, in arrays and in the data of Notifications, and nothing else |
| Conformance.ReservedUntouched | crates/antares-api/src/conformance.rs:213-246 | a resource under one of the six names the code knows, other than a Notification, is never amended |
| Conformance.NativeUntouched | crates/antares-api/src/conformance.rs:28-34 | a version the broker speaks natively changes nothing |
| Payloads.PayloadFixpoint | crates/antares-api/src/conformance.rs:213-250 | a payload is left as it is exactly when everything in it that is read as an Entity, in arrays and in the data of Notifications, uses nothing later; whatever has an `id`, a `type` and none of the six names is read as one |
| Payloads.EarlyEntity | crates/antares-api/src/conformance.rs:31-66 | two versions before 1.3 make the same Entity of a type list that names no list first |
| Payloads.PayloadComposes | crates/antares-api/src/conformance.rs:227-250 | two downgrades of a payload are one if and only if no Entity in it has a list nested first in its type list, and none that is renamed to a Notification has an Attribute `data` holding, in what would be read as an Entity, a scope, a type list, or a value with anything later in it |
| Payloads.DataConforms | crates/antares-api/src/conformance.rs:69-250 | an Attribute amended to a version before 1.3 holds nothing more to amend as the data of a Notification exactly when the Attribute itself stands that reading |
| Payloads.PlainPayloadComposes | crates/antares-api/src/conformance.rs:227-250 | two downgrades are one wherever the first is to 1.3 or later, or no type list names Notification or a list first |
| Payloads.RenamedExample | crates/antares-api/src/conformance.rs:236-243 | a document for which a second downgrade to 1.0 takes what the first one had left |
| Discovery.ListingUntouched | crates/antares-api/src/conformance.rs:31-66 | a resource of scalars and plain lists that is read as an Entity passes as it is if and only if the version is 1.3 or later or all its lists are empty |
| Discovery.DiscoveryUntouched | crates/antares-api/src/types_attrs.rs:226-420 | so do the discovery resources and the identity of the source, as the broker serves them: exactly if the version is 1.3 or later or they list nothing |
| Discovery.PageUntouched | crates/antares-api/src/types_attrs.rs:223-238 | so does a page of them |
| Discovery.TypeListCut | crates/antares-api/src/types_attrs.rs:239-245 | before 1.3 a list of Entity Types is served as its first name alone |
| Discovery.TypeListExample | crates/antares-api/src/conformance.rs:208-225 | a resource that is no Entity and is amended |
| Discovery.SimplifiedCut | crates/antares-api/src/conformance.rs:78-92 | before 1.3 a list that is the value of a simplified Entity's member is cut to its first element |
| Depth.JsonDepth | crates/antares-api/src/bounds.rs:248-272 | the loop reports the maximum of the scan automaton and never underflows |
| Depth.ScanIsNesting | crates/antares-api/src/bounds.rs:246-272 | for every legal spelling of a JSON text the reported depth is the nesting of its value |
| Depth.RunString | crates/antares-api/src/bounds.rs:251-262 | a string leaves the scan where it was, whatever brackets, quotes and escapes it spells |
| Depth.Admit | crates/antares-api/src/bounds.rs:357-363 | a JSON body passes exactly when its scan stays within 64 |
| Depth.AdmittedIsShallow | crates/antares-api/src/bounds.rs:357-363 | the value of an admitted body nests no deeper than 64, and where no object repeats a name it is refused only if it does |
| Depth.RunGrows | crates/antares-api/src/bounds.rs:248-272 | on any bytes the maximum only grows, by one per byte at most, and bounds the current depth |
| Depth.PrefixMonotone | crates/antares-api/src/bounds.rs:248-272 | a body is reported at least as deep as each of its prefixes |
| Depth.StrayClosers | crates/antares-api/src/bounds.rs:267 | closers with nothing open leave the scan where it was |
| Instances.MergeInstanceSets | crates/antares-api/src/attrs.rs:705-741 | the loop's list and its flag are those of the fold over the incoming instances |
| Instances.MergeIsPutAll | crates/antares-api/src/attrs.rs:705-741 | seen as a map from datasetId to instance, the merge is one map update per incoming instance; a list with one live instance per dataset stays one |
| Instances.MergeAsClause | crates/antares-api/src/attrs.rs:705-741 | what becomes of each datasetId: it stays where nothing comes for it or it may not be overwritten, goes with a null, is added where it was absent, and is replaced otherwise by the incoming instance with the stored createdAt |
| Instances.AnyAppliesByName | crates/antares-api/src/attrs.rs:704-741 | the flag is true exactly when an incoming instance takes out what is stored, adds what is not, or may overwrite |
| Instances.DeletesByName | crates/antares-jsonld/src/expand.rs:494-532 | the marks of a deletion, by the members and nulls of clause 5.5.8 |
| Instances.CreatedSurvives | crates/antares-api/src/attrs.rs:725-730 | a stored instance keeps its createdAt when replaced, and keeps everything when not named or not overwritten, whatever is deleted from other datasets |
| Instances.NothingApplied | crates/antares-api/src/attrs.rs:704-741 | a merge that reports nothing applied changed nothing |
| Instances.NoOverwriteExtends | crates/antares-api/src/attrs.rs:722-737 | with noOverwrite the stored list only gains, at its end, and the flag is true exactly when it does |
| EntityAttrs.StampKeeps | crates/antares-api/src/stamp.rs:34-48 | stamping neither moves an instance to another dataset nor makes or unmakes a deletion marker |
| EntityAttrs.StampByName | crates/antares-api/src/stamp.rs:34-48 | every instance and every instance of a sub-Attribute is created and modified at the instant given, and nothing else changes |
| EntityAttrs.MergeAttr | crates/antares-api/src/attrs.rs:291-312 | one Attribute of an append or update: its new instances, and that no other member changes |
| EntityAttrs.MergeAttrs | crates/antares-api/src/attrs.rs:346-375 | after the loop every Attribute of the fragment is written and named in exactly one of the two lists |
| EntityAttrs.WriteAttrs | crates/antares-api/src/attrs.rs:177-204 | the store closure: what it writes and reports member by member, and that it commits only if something was updated |
| EntityAttrs.WroteAsClause | crates/antares-api/src/attrs.rs:177-375 | what a committed write leaves, by name: an absent Attribute as it came and stamped, on an update without its nulls; a stored one merged by datasetId, gone on an update that leaves it nothing; types added, scope replaced or added; nothing else touched but modifiedAt |
| EntityAttrs.ListedAsClause | crates/antares-api/src/attrs.rs:267-375 | what is reported, by name: an Attribute is in updated exactly if it was absent, or the write is an update, or an incoming instance has an effect; types and scope exactly where they changed |
| EntityAttrs.UpdatedIsStored | crates/antares-api/src/attrs.rs:291-375 | an Attribute of the fragment is stored afterwards, or it was an update and a null took it out |
| EntityAttrs.NotTakenUnchanged | crates/antares-api/src/attrs.rs:302-310 | an Attribute reported in notUpdated keeps its stored instances |
| EntityAttrs.UntouchedChangesNothing | crates/antares-api/src/attrs.rs:185-201 | a write with nothing updated has made no other document than the stored one, types, scope and every Attribute included, and names every Attribute of the fragment in notUpdated |
| EntityAttrs.ReportedOnce | crates/antares-api/src/attrs.rs:267-313 | every Attribute of the fragment is in exactly one of updated and notUpdated, once |
| EntityAttrs.PartialUpdate | crates/antares-api/src/attrs.rs:823-873 | the closure in place: refused where the type selector does not match, and otherwise an update of the addressed instance alone, as the next row says |
| EntityAttrs.PartialChanges | crates/antares-api/src/attrs.rs:831-868 | a partial update finds the instance of the fragment's datasetId or changes nothing; every other member and every other dataset keeps what it had; the instance goes if the fragment marks it, the update is refused if the fragment names another type, and otherwise createdAt and the type stay and each other member is the fragment's, gone where that is null, or as it was |
| EntityAttrs.PartialKeepsGood | crates/antares-api/src/attrs.rs:831-868 | a partial update keeps every Attribute non-empty, with one live instance per dataset |
| EntityAttrs.ReplaceAttr | crates/antares-api/src/attrs.rs:983-1016 | the closure in place: refused where the type selector does not match, and otherwise a replacement of the addressed instance alone, as the next row says |
| EntityAttrs.ReplaceChanges | crates/antares-api/src/attrs.rs:983-1016 | a replace finds the instance of the incoming datasetId or changes nothing; every other member and every other dataset keeps what it had; the new instance has the incoming members, the stored createdAt if there was one, and a new modifiedAt |
| EntityAttrs.ReplaceKeepsGood | crates/antares-api/src/attrs.rs:991-1011 | a replacement keeps every Attribute non-empty, with one live instance per dataset |
| EntityAttrs.DeleteAttr | crates/antares-api/src/attrs.rs:1110-1147 | the closure in place: refused where the type selector does not match, and otherwise a deletion of the addressed instance, or of all, as the next row says |
| EntityAttrs.DeleteChanges | crates/antares-api/src/attrs.rs:1123-1147 | a delete takes exactly the addressed dataset, or all of them, out of the map from datasetId to instance; every other member keeps what it had; the Attribute leaves with its last instance; it is found exactly when there was something to take |
| EntityAttrs.DeleteScope | crates/antares-api/src/attrs.rs:1117-1122 | deleting the scope takes it out, leaves the rest, and is found exactly when there was one |
| EntityAttrs.DeleteKeepsGood | crates/antares-api/src/attrs.rs:1126-1145 | a deletion keeps every Attribute non-empty, with one live instance per dataset |
| EntityAttrs.RunKeepsGood | crates/antares-api/src/attrs.rs:267-1147 | in every run of append, update, partial update, replace and delete each Attribute keeps at least one instance, at most one per datasetId, and no null marker |
| Combine.FedAttrParts | crates/antares-api/src/federation.rs:2547-2596 | one part per registration; a proxy that does not accept the operation refuses, an inclusive one is passed over |
| Combine.CombineAttrParts | crates/antares-api/src/attrs.rs:521-641 | which answer of 6.3.17 a write gets, in statuses: a 204 only if every contacted registration that holds a touched Attribute answered 200 to 299 and not 207; a lone proxy's other status as itself, 508 and a refusal apart; in a 207 an Attribute is updated exactly if it was locally or by such an answer |
| Combine.NoContentMeansApplied | crates/antares-api/src/attrs.rs:622-624 | a 204 means every touched Attribute was applied somewhere and refused nowhere |
| Combine.MultiListsAll | crates/antares-api/src/attrs.rs:637-640 | a 207 lists every touched Attribute, as updated exactly if it was applied somewhere, as notUpdated exactly if it was refused somewhere |
| Combine.LocalHalf | crates/antares-api/src/federation.rs:2606-2626 | an Attribute of the fragment is in the local half exactly when no proxy covers it |
| Combine.AllHeldByName | crates/antares-api/src/attrs.rs:448-454 | the local half is skipped exactly when the fragment names an Attribute and exclusive or redirect registrations hold all it names |
| Combine.DistributedWrite | crates/antares-api/src/attrs.rs:130-245 | the whole write: a 204 means every Attribute was taken here or by a peer, a 207 lists each and says which; what proxies hold is not stored, and where they hold everything nothing is and a lone one's failure is the answer |
| Rounds.AddAbsentIsMerge | crates/antares-api/src/batch.rs:878-894 | without nulls the batch's noOverwrite loop builds the list that `merge_instance_sets` builds with noOverwrite |
| Rounds.RunById | crates/antares-api/src/batch.rs:770-773 | a left-to-right run acts on each id by itself |
| Rounds.RoundHolds | crates/antares-api/src/batch.rs:774-785 | round n holds an id exactly if it occurs more than n times, and then once |
| Rounds.SplitOf | crates/antares-api/src/batch.rs:770-786 | laid end to end, the rounds hold each id's entries in array order, each at its round's instant |
| Rounds.RoundsAreSequential | crates/antares-api/src/batch.rs:770-786 | executing the rounds in order leaves the store and, for every id, the results of executing the array one entry after the other |
| Rounds.ApplyByName | crates/antares-api/src/batch.rs:801-947 | what one entry leaves and how it ends, by mode: stamped as new, merged into what is stored, kept with noOverwrite, or nothing; which absent, present or half-kept document makes it fail |
| Rounds.NoOverwriteByName | crates/antares-api/src/batch.rs:865-896 | with noOverwrite each Attribute of the fragment keeps its instances and gains at its end those of datasets it lacks, an absent one is stored as it came, and everything else but modifiedAt stays |
| Batch.PushAbsent | crates/antares-api/src/batch.rs:883-892 | the noOverwrite loop: the list it builds and whether it skipped an instance |
| Batch.KeepExisting | crates/antares-api/src/batch.rs:865-896 | the noOverwrite closure on one document: its new members and whether any Attribute existed |
| Batch.SplitRounds | crates/antares-api/src/batch.rs:774-785 | the loop with its occurrence map builds the rounds, and no round repeats an id |
| Batch.MutateRound | crates/antares-api/src/batch.rs:853-924 | a round of update or merge does to every id what the entry alone would, and reports it |
| Batch.MergePresent | crates/antares-api/src/batch.rs:806-827 | with options=update the entries whose id is stored are merged and reported, the others handed on |
| Batch.ReplaceRound | crates/antares-api/src/batch.rs:831-851 | inserted or replaced entries end as each alone would, and a creation is flagged exactly where the id was absent |
| Batch.UpsertRound | crates/antares-api/src/batch.rs:801-852 | a round of upsert, in both modes, does to every id what the entry alone would |
| Batch.WriteRounds | crates/antares-api/src/batch.rs:774-926 | upsert, update and merge leave the store and the results of the left-to-right run |
| Batch.WriteCreates | crates/antares-api/src/batch.rs:927-947 | the one multi-row create leaves the store and the log of the left-to-right run; of two equal ids the second already exists |
| Batch.Tally.Note | crates/antares-api/src/batch.rs:840-850 | the lists keep naming each id at most once, success exactly what succeeded, created exactly what was created, errors every failure |
| Batch.RespondAnswers | crates/antares-api/src/batch.rs:969-988 | the final answer says of the run what it must: 207 exactly when something failed, with S and E; 201 with the created ids; 204 otherwise |
| Batch.BatchWrite | crates/antares-api/src/batch.rs:642-989 | a local batch write leaves the store, and gives the answer, of the array executed one entry after the other |
| Batch.ByEntry | crates/antares-api/src/batch.rs:642-989 | the run entry by entry: what the store holds for each id in the end, each entry applied at the instant of its round, and the answer: 207 exactly when an entry failed, S the ids of those that succeeded, a 201 the ids of those that created |
| Batch.StoredIsFold | crates/antares-api/src/batch.rs:806-924 | a merge, an update and an upsert with options=update leave a stored id as the fold of `merge_into` over its entries in array order |
| Batch.UpsertCreates | crates/antares-api/src/batch.rs:838-850 | an upsert fails no entry, and creates exactly the ids it names that were absent beforehand |
| Batch.UpsertAnswer | crates/antares-api/src/batch.rs:969-976 | an upsert of well-prepared entries answers exactly the ids absent beforehand, or 204 if and only if there are none |
| Remote.MergeRemoteBatch | crates/antares-api/src/batch.rs:227-289 | what a reply to a bulk forward adds to the two lists |
| Remote.BulkAccounts | crates/antares-api/src/batch.rs:236-289 | only sent ids are added; unless the reply carries per-id lists each sent id gets exactly one outcome; a 2xx array adds exactly the sent ids it names, and no error |
| Remote.ForwardEach | crates/antares-api/src/batch.rs:525-615 | the loops of the single-Entity ladder end each Entity as specified, a 409 on creation falling through to the update |
| Remote.SettleAccounts | crates/antares-api/src/batch.rs:525-615 | every rung gives each forwarded Entity exactly one outcome |
| Remote.SettleByName | crates/antares-api/src/batch.rs:525-615 | how the ladder ends each Entity, by operation names and statuses: the call the mode starts with, the update after a 409 to a creation, success for 200 to 299 but 207, and the error type of anything else |
| Remote.SettleCreated | crates/antares-api/src/batch.rs:447-463 | an Entity is reported created only if its peer answered 201 to its creation |
| Remote.ContributionAccounts | crates/antares-api/src/batch.rs:480-629 | per registration: outcomes for the forwarded Entities and for no other, one each except where a reply carries lists, a Conflict each on the last rung, none only where an inclusive registration supports nothing |
| Remote.ForwardedAccounts | crates/antares-api/src/batch.rs:480-629 | every id with a forwarded outcome was forwarded to some registration |
| Remote.Absorb | crates/antares-api/src/batch.rs:630-638 | S gains exactly the ids applied remotely, still each once, and the created ids exactly those created remotely |
| Remote.DistributedWrite | crates/antares-api/src/batch.rs:642-989 | a batch write with forwards: the local store of the sequential run, S and E holding every local and every forwarded outcome |
| Delete.Sift | crates/antares-api/src/batch.rs:1168-1197 | the loop that pairs the array with the store's flags: what was deleted, which occurrences were missed, which entries are no strings |
| Delete.BatchDelete | crates/antares-api/src/batch.rs:1164-1314 | what a batch delete removes, and its S and E |
| Delete.NotFoundCount | crates/antares-api/src/batch.rs:1302-1313 | exactly the occurrences beyond the one that was stored are ResourceNotFound, unless a forward spoke of the id |
| Delete.EveryIdEnds | crates/antares-api/src/batch.rs:1283-1313 | every id of the array ends in S or in E |
| Delete.RepeatFails | crates/antares-api/src/batch.rs:1302-1313 | a repeated id is in E even where its first occurrence was deleted |
| Delete.CleanDelete | crates/antares-api/src/batch.rs:1314 | a 204 means every entry named an Entity, held here or deleted by a forward |
| Delete.ContributionSettles | crates/antares-api/src/batch.rs:1198-1282 | a registration settles only the ids it was sent, each once unless its peer answers a bulk delete with lists; none only where it is inclusive and supports neither operation |
| Delete.ForwardsOnlyIds | crates/antares-api/src/batch.rs:1198-1296 | no forward adds an id that the array does not hold |
| Egress.PrefixIsTenant | crates/antares-api/src/egress.rs:54-55 | a key starts with another key's prefix exactly when both belong to one tenant |
| Egress.EvictOldest | crates/antares-api/src/egress.rs:54-68 | below the ceiling nothing goes; at it one entry goes, an oldest of the arriving tenant's own or, if it has none, of all |
| Egress.Egress.IsOpen | crates/antares-api/src/egress.rs:208-224 | one step of the breaker map: what it answers and the one entry it may rewrite |
| Egress.Egress.RecordSuccess | crates/antares-api/src/egress.rs:226-231 | one step: the entry goes |
| Egress.Egress.RecordFailure | crates/antares-api/src/egress.rs:233-248 | one step: the entry counts one more failure and trips at the fifth; the map stays within its ceiling |
| Egress.Egress.RegRecord | crates/antares-api/src/egress.rs:125-138 | one step of the cooldown map, within its ceiling |
| Egress.CooldownExactlyWhen | crates/antares-api/src/egress.rs:111-138 | a registration in cooldown has last failed, less than its window ago; one that has, and whose entry no eviction dropped, is in cooldown |
| Egress.OneTenantCost | crates/antares-api/src/egress.rs:37-68 | in either map, a run of one tenant's calls keeps the ceiling and costs the other tenants one entry at most, and none unless they filled the map alone |
| Egress.HolderCostsNothing | crates/antares-api/src/egress.rs:40-46 | a tenant that already holds an entry costs the others nothing |
| Egress.TenantCost | crates/antares-api/src/egress.rs:177-204 | the same for the breakers, tenant by tenant and destination by destination, the ceiling included |
| Egress.RegTenantCost | crates/antares-api/src/egress.rs:37-138 | the same for the registration cooldowns |
| Egress.ProjectedRun | crates/antares-api/src/egress.rs:177-204 | while no eviction is needed, a tenant's calls alone, on its own entries, are a run with the same answers |
| Egress.Isolated | crates/antares-api/src/egress.rs:177-204 | until the ceiling is reached, what other tenants do makes no difference to a tenant's answers |
| Egress.ProbesApart | crates/antares-api/src/egress.rs:206-224 | two probes let through with no success or eviction in between are a cooldown apart |
| Egress.OpenExactlyWhen | crates/antares-api/src/egress.rs:206-248 | a destination is held open exactly when it failed five times since its last success and its last failure or probe is less than a cooldown ago |
| Registry.ExclusivesMatch | crates/antares-api/src/registry.rs:144-264 | the check finds two exclusive registrations to overlap if and only if they share an Entity id and an Attribute and their declared types meet there |
| Registry.MatchIsShared | crates/antares-api/src/csource.rs:807-816 | a match between exclusives is a shared Entity id and a shared Attribute |
| Registry.SharedIsMatch | crates/antares-api/src/csource.rs:807-816 | the converse, for a check made by a registration without declared types |
| Registry.TypesKeepApart | crates/antares-api/src/registry.rs:145-160 | two exclusive registrations for one Entity id and Attribute that differ in their declared type do not match |
| Redirects.ExclusiveOverRedirect | crates/antares-api/src/registry.rs:144-264 | an exclusive registration is found to overlap a redirect one if and only if a selector of the redirect takes one of its Entity ids, where the declared types meet, for an Attribute both are about |
| Redirects.RedirectOverExclusive | crates/antares-api/src/csource.rs:861-899 | a redirect registration is found to overlap an exclusive one if and only if one of its ids, its first pattern, or the absence of both takes an Entity id of it, where the declared types meet, for an Attribute both are about |
| Redirects.ReachedIsShared | crates/antares-api/src/csource.rs:807-816 | a redirect that matches an exclusive is about an Entity id and an Attribute that the exclusive names |
| Redirects.SharedIsReached | crates/antares-api/src/csource.rs:807-816 | the converse, for a redirect without declared types whose elements have one pattern at most and no unrestricted selector beside a restricted one |
| Redirects.SharedIsMet | crates/antares-api/src/csource.rs:807-816 | an exclusive without declared types matches every redirect about one of its Entity ids and Attributes |
| Redirects.CoveredIsReached | crates/antares-api/src/csource.rs:868-899 | of such an element the code reads every Entity the clause means |
| Redirects.NotSimple | crates/antares-api/src/csource.rs:868-899 | of every other element it misses one, for some regular expressions |
| Registry.ExclusiveLists | crates/antares-api/src/csource.rs:770-805 | a validated exclusive registration names Attributes and Entity ids and no id pattern |
| Registry.KeyedFindsAll | crates/antares-api/src/csource.rs:628-696 | where every selector names an id, reading those Entities finds a conflict exactly when reading all would |
| Registry.HitByName | crates/antares-api/src/csource.rs:628-664 | a stored Entity conflicts exactly if a selector takes its id and one of its types and, under an exclusive registration, it has a listed Attribute; under a redirect any such Entity |
| Registry.BlocksByName | crates/antares-api/src/csource.rs:838-902 | a stored registration is in the way exactly if it is another one, live, overlaps, and is exclusive or redirect under a new exclusive, exclusive under a new redirect |
| Walk.Store.ListPage | crates/antares-store/src/lib.rs:416-436 | the first `limit` documents with ids after the cursor, in id order; a short page is the last |
| Walk.VisitPage | crates/antares-api/src/csource.rs:1246-1251 | the documents of a page are visited in order up to the first refusal |
| Walk.WalkDocs | crates/antares-api/src/csource.rs:1232-1260 | while others remove, rewrite and insert documents between pages: visits in id order, each once, as it was stored at some moment, misses none that was there throughout, stops at the first refusal, and ends if only finitely many documents come |
| Walk.CollectMatching | crates/antares-api/src/csource.rs:1271-1291 | matching documents in id order, at most `ceiling`, with every one that matched throughout; TooManyResults only if more have matched at some moment; on a store that holds still both are exact |
| Walk.CheckEntityConflict | crates/antares-api/src/csource.rs:581-699 | while others write: a conflict is an Entity that stood in the way at some moment, and without one every Entity that was there throughout was found out of the way of every element; on a store that holds still the check is exact, whichever of the two reads is taken |
| Walk.CheckProxiedOverlap | crates/antares-api/src/csource.rs:817-905 | only an exclusive or redirect registration is checked; if nothing is found, no registration that was there throughout stood in the way when visited: none was another one, live at its visit, of a guarded mode and overlapping; a refusal names one that was |
| Protocol.MergeInto | crates/antares-api/src/csource.rs:1339-1349 | the loop over a patch removes what is null, sets what is not, and never touches `id` |
| Protocol.ApplyDocFragment | crates/antares-api/src/lib.rs:154-173 | the stored document becomes the merged document the checks saw, and a stamp |
| Protocol.NextKeeps | crates/antares-api/src/csource.rs:979-998 | every step of every client, every booking of a forward and every tick of the clock keeps the invariant |
| Protocol.PcStays | crates/antares-api/src/csource.rs:714-763 | what a write under the lock relies on survives every deletion, purge and sweep of other clients and every forward booked |
| Protocol.VisitOk | crates/antares-api/src/csource.rs:838-902 | a visit that passes extends, up to the document visited, what is known not to stand in the way |
| Protocol.WriteIsChecked | crates/antares-api/src/csource.rs:984-998 | a write that changes the store puts there the checked document with its stamps and, on an update, the books held at that moment; a create only where nothing was, an update only where something is |
| Protocol.WriteKeepsRows | crates/antares-api/src/csource.rs:907-945 | with a checked document written, of any two live rows the later still does not match the earlier |
| Protocol.RunKeeps | crates/antares-api/src/csource.rs:907-998 | every state of every interleaving keeps the invariant, forwards booked without the lock included |
| Protocol.LaterDoesNotMatch | crates/antares-api/src/csource.rs:817-905 | in every reachable state, of two live registrations the one written last does not match, in a guarded mode, the other |
| Exclusion.BrokerIsLawful | crates/antares-api/src/csource.rs:849-902 | the broker's checks read nothing that the stamps or a forward change, a merge of normalized documents is normalized, and only exclusive and redirect registrations are guarded |
| Exclusion.VisitIsBlocked | crates/antares-api/src/csource.rs:838-902 | the visit of the paged check and the test of the protocol are the same, for every request, registration and instant |
| Exclusion.NotInItsOwnWay | crates/antares-api/src/csource.rs:840-842 | in every reachable state an update is not refused for the registration it updates |
| Exclusion.LaterDoesNotOverlap | crates/antares-api/src/csource.rs:817-905 | the same for the broker's own matching and guarded modes |
| Exclusion.ExclusivesApart | crates/antares-api/src/csource.rs:807-816 | two live exclusive registrations never share an Entity id and an Attribute where the declared types meet, and none at all if the later declares no type |
| Exclusion.RedirectAfterExclusive | crates/antares-api/src/csource.rs:807-816 | of a live exclusive and a live redirect written after it, the redirect reaches no Entity id of the exclusive where types and Attributes meet; it shares no Entity id and Attribute with it at all if it declares no type and its elements are read in full |
| Exclusion.ExclusiveAfterRedirect | crates/antares-api/src/csource.rs:807-816 | of a live redirect and a live exclusive written after it, no selector of the redirect takes an Entity id of the exclusive where types and Attributes meet, and they share none at all if the exclusive declares no type |
| Protocol.UpdateWritesChecked | crates/antares-api/src/csource.rs:1333-1369 | a write that found no live registration changes nothing; one that changes the store leaves every other row, and the document its checks accepted on every member but modifiedAt and the five that forwards book, which stand as they are at the write |
| Protocol.RecordForward | crates/antares-store/src/lib.rs:224-253 | the closure that books a forward counts one attempt more, one failure more if it was one, names the last outcome and when it was, and leaves every other member alone |
| Bookkeeping.ExactlyTheBooks | crates/antares-api/src/csource.rs:1355-1365 | one write: it stores the very document that was checked if and only if the books held then are those that were read |
| Bookkeeping.OnlyForwards | crates/antares-api/src/federation.rs:840-846 | while a client stays under the lock without writing, each step leaves a registration as it is, or removes it, or books a forward and counts it |
| Bookkeeping.ExactUnlessForwarded | crates/antares-api/src/csource.rs:1330-1369 | over whole runs: an update stores the very document its checks accepted if and only if no forward to the registration was booked between its read and its write |
| Bookkeeping.ForwardedBetween | crates/antares-store/src/lib.rs:224-253 | a run of the broker on which an update stores a count of forwards that its checks never saw |
| Sweeps.TakesLiveExactlyWhen | crates/antares-api/src/csource.rs:714-763 | what a sweep, or the purge of a delete, removes is a live registration if and only if one has been written under its id since the collector had yet to read it, and has not expired |
| Sweeps.LockedPurgeTakesNone | crates/antares-api/src/csource.rs:714-726 | the purge of a create or an update never removes a live registration |
| Sweeps.SweepTakesLiveExample | crates/antares-api/src/csource.rs:733-763 | a run of the broker on which a sweep removes a live registration |
| Progress.Completes | crates/antares-api/src/csource.rs:949-998 | from every reachable state in which the lock is free, a create or update that nothing stored stands in the way of can come to its write, page by page, and leaves what was asked for and every other registration as it was |
| Progress.Deletes | crates/antares-api/src/csource.rs:1387-1405 | from every reachable state a delete can remove its registration, whoever holds the lock |

## Left out

- HTTP, headers, parameter and policy checks, URL building, the forwarding itself and DNS: a forward is an arbitrary reply.
- JSON trees, instance lists and stored documents are values: the loops return the rewritten value where the code updates it in place, so sharing between trees is not modelled.
- `merge_into`, `stamp_new` and `expand_entity` are parameters of the batch model: their own meaning is not part of it. `strip_proxied` and `reduce_to_scope` are left to the caller: a batch starts from the prepared entries and the Entities each registration is sent.
- Errors of the store itself: a store call succeeds. In `Protocol` a failed call is a client that gives up.
- Regular expressions and entity type selections are parameters of `Registry`; DateTime text is compared through a map to instants.
- Combine.CombineAttrParts: a part's detail text is kept with one flag for the phrase the code searches it for.
- Remote.DistributedWrite: S and E may share an id, and the created ids may repeat one that a forward created twice; the code allows both.
- Remote.BulkAccounts: a sent id that a 2xx array or a 207 object does not name gets no outcome from that reply; the code allows it.
- Discovery.DiscoveryUntouched: the resources as plain JSON; the `@context` member of JSON-LD is covered by `Discovery.ListingUntouched`.
- Egress.Egress.IsOpen: one instant per call, where the code reads the clock again when it stamps a probe; failures are unbounded integers.
- Walk.WalkDocs: the store has a bound, of any size, on the documents that may still be inserted; without one the walk need not end.
- Protocol.RecordForward: the counters are unbounded integers, where the code adds to an `i64`.
- Protocol.RunKeeps: one tenant, whose lock and rows are its own; one broker process; a store call is one atomic step even if its client goes away.
- Exclusion.BrokerIsLawful: the broker's World takes normalization as given for a request, and leaves contexts, regular expressions and clocks as parameters.
- The auxiliary-operations rule of a registration: in `Protocol` a write may give up at any step.
- The datasetId, scope, location, csf and temporal conditions of registration matching, which the overlap check does not set.
- Subscriptions, queries, temporal data, contexts, persistence, the performance and report scripts, the test-suite helpers and the web UI.
