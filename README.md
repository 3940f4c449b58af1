# Jaseci element core, node scenarios and `jsctl` command tree in Dafny

This project models four parts of the Jaseci repository.

- **The `element` base class** (`jaseci_core/jaseci/element.py`). Every Jaseci object inherits from it. It covers:
  - the constructor, which sets six attributes and saves the object to its hook;
  - the `id` and `owner_id` properties, which store UUIDs as URN text;
  - `serialize`, with its key fields, its stripping of `context['_private']` and its expansion of id lists;
  - `json_load`, which calls `setattr` once per key;
  - `duplicate`, `is_equivalent`, `jsci_payload` and `__str__`.

  An element is a Dafny `class` whose attribute record (`vars(self)`) is a field that its methods update in place. The hook is a class holding the live objects by identifier. Each method is proved equal to a pure definition in the modules `Records`, `Uuids`, `Identity`, `Serialization`, `Loading`, `Equivalence`, `Payload`, `Duplication` and `Describe`, and the properties are lemmas about those definitions.
- **The node test scenarios** (`backend/jaseci/jaseci/core/tests/test_node.py`). Nodes, edges, actions and `id_list`s are modelled abstractly in the modules `Graph` and `IdList`:
  - a node's id lists are fields its methods reassign;
  - edges and actions live in the hook.

  Each test in the file is a method of `NodeTests`. Every assertion of the test is a postcondition of that method.
- **The `jsctl` command-line front end** (`jaseci_core/jaseci/jsctl/jsctl.py`):
  - `extract_api_tree`, which builds a nested dict of command groups from the API method names (`ApiTree`);
  - `build_cmd` and `cmd_tree_builder`, which turn that dict into click commands and groups (`ApiCommands`);
  - the URL path chosen in `remote_api_call`, and the removal of a trailing slash from the URL in `login` (`ApiRemote`).
- **The `wkt_note` filter** (`frontend/web/src/components/wkt-note-set.jsx`): the predicate that picks the open notes out of a workette list (`WktNotes`).

Python's exceptions are values of a `Result` datatype, so each error path of the source is a case of the model.

Proving the `jsctl` tree led to two facts about the source. Both are stated as lemmas.

- **`admin_api_f` and `api_f` get the same path** (`ApiTree.AdminAndUserShareAPath`). Whichever `dir()` lists last owns the leaf. `dir()` sorts names, so `api_f` wins. The command line can then reach only one of the two APIs.
- **A group named `leaf` collides with the leaf marker** (`ApiTree.LeafGroupIsOverwritten`, `ApiTree.LeafGroupRaises`). A command group whose name is the marker key `leaf` uses the same dict key as the marked entry. `dir()` lists `admin_api_a_leaf_x` before `api_a`, so `api_a` is registered second and overwrites the whole `a leaf` sub-tree: the command under it disappears. `dir()` lists `api_a` before `api_a_leaf_x`, and then the walk for the second name meets the `leaf` list and `extract_api_tree` raises `AttributeError`.

These are limits of the naming scheme rather than evident bugs, so there is no corrected variant.

## Model

| member | source | states |
|---|---|---|
| Records.Lookup | jaseci_core/jaseci/element.py:111 | `getattr` finds a value exactly when the attribute exists, and that value is one of the record's fields |
| Records.LookupDistinct | jaseci_core/jaseci/element.py:111 | In a record without repeated names, reading the name of field i gives the value of field i |
| Records.Assign | jaseci_core/jaseci/element.py:166 | `setattr` grows the record by one field exactly when the name is new |
| Records.AssignLookup | jaseci_core/jaseci/element.py:166 | After `setattr(k, v)`, reading `k` gives `v` and every other attribute reads as before |
| Records.AssignNames | jaseci_core/jaseci/element.py:166 | `setattr` keeps the attribute order, and a new name goes last (dict insertion order) |
| Records.AssignDistinct | jaseci_core/jaseci/element.py:166 | `setattr` never creates a repeated attribute name |
| Uuids.ParseHexDigits | jaseci_core/jaseci/element.py:61 | Writing n as k hex digits and parsing them gives n back, for every n < 16^k |
| Uuids.Ungrouped | jaseci_core/jaseci/element.py:61 | The 8-4-4-4-12 hyphenated layout keeps the 32 hex digits in order, with hyphens at positions 8, 13, 18 and 23 |
| Uuids.ParseUrn | jaseci_core/jaseci/element.py:59-65 | `uuid.UUID(u.urn) == u`: the text the `id` setter stores gives the same identifier back through the getter |
| Uuids.UrnInjective | jaseci_core/jaseci/element.py:63-65 | Distinct identifiers are stored as distinct `jid` texts |
| Identity.IdOf | jaseci_core/jaseci/element.py:59-61 | The `id` getter; `IdRoundTrip` shows it reads back what the setter stores, and `IdOfRaises` gives its exceptions |
| Identity.IdOfRaises | jaseci_core/jaseci/element.py:60-61 | `uuid.UUID(self.jid)` raises `AttributeError` for a missing `jid` or a value that is neither `None` nor text, `TypeError` for `None`, and `ValueError` for text that is not a UUID |
| Identity.IdRoundTrip | jaseci_core/jaseci/element.py:59-65 | After the `id` setter stores a UUID, the `id` getter returns that UUID, and `jid` holds its URN |
| Identity.OwnerIdOf | jaseci_core/jaseci/element.py:67-71 | The `owner_id` getter; `OwnerIdOfStored` and `OwnerIdRoundTrip` show a falsy `j_owner` reads as no owner and a stored URN as its UUID |
| Identity.OwnerIdOfStored | jaseci_core/jaseci/element.py:67-71 | The `owner_id` getter gives no owner for a stored `None` and the UUID for a stored URN |
| Identity.OwnerIdRoundTrip | jaseci_core/jaseci/element.py:67-78 | After the `owner_id` setter stores an owner or `None`, the getter returns it; `None` is stored as `None` |
| Identity.RestampedId | jaseci_core/jaseci/element.py:97-98 | Renewing the timestamp after writing the identifier keeps that identifier |
| Identity.InitialDistinct | jaseci_core/jaseci/element.py:49-54 | The six attributes the constructor sets have distinct names |
| Identity.InitialId | jaseci_core/jaseci/element.py:51 | A new element's `id` is the fresh UUID it was given |
| Identity.InitialOwner | jaseci_core/jaseci/element.py:52 | A new element's `owner_id` is the owner it was given, or none |
| Identity.InitialTags | jaseci_core/jaseci/element.py:49-54 | A new element has the given name and kind, the class name as `j_type` and the creation time as `j_timestamp` |
| Duplication.InitialShaped | jaseci_core/jaseci/element.py:49-54 | A new element has the base attributes, without repeats and without property names |
| Duplication.LoadShaped | jaseci_core/jaseci/element.py:162-166 | `json_load` keeps the attributes every element has |
| Serialization.SerializeAttrs | jaseci_core/jaseci/element.py:131-151 | `serialize` of a record; `SerializeOk`, `SerializeFieldwise` and `SerializedKeys` give when it raises and which fields it emits, in order |
| Serialization.SerializeValue | jaseci_core/jaseci/element.py:142-150 | One emitted field: the context stripped of its private keys unless `detailed`, and an `id_list` expanded when `deep > 0`; `SerializeFieldwise`, `IdListExpansion` and `FlatValueStaysFlat` state it |
| Serialization.ExpandIds | jaseci_core/jaseci/element.py:147-150 | The children of an `id_list`; `ExpandIdsSpec` shows it succeeds exactly when the hook holds every id and each child serialises, and then gives the children in list order |
| Serialization.Emit | jaseci_core/jaseci/element.py:138-141 | A serialised record holds only public fields of the object, and only key fields unless `detailed` |
| Serialization.EmitNames | jaseci_core/jaseci/element.py:136-141 | A name is serialised exactly when the object has it, it is public, and it is a key field or `detailed` is set |
| Serialization.SerializeOk | jaseci_core/jaseci/element.py:131-151 | `serialize` raises exactly when one of the emitted values fails to serialise |
| Serialization.SerializeFieldwise | jaseci_core/jaseci/element.py:138-151 | A successful `serialize` has one entry per emitted field, in attribute order, each the per-field serialisation of that field's value |
| Serialization.SerializedKeys | jaseci_core/jaseci/element.py:136-142 | The keys of the serialised dict are the object's public names that `detailed` lets through |
| Serialization.KeySetCons | jaseci_core/jaseci/element.py:145-146 | The names deleted by a `_private` list are the first name plus those of the rest |
| Serialization.DeleteKeysSpec | jaseci_core/jaseci/element.py:145-146 | Deleting the `_private` names succeeds exactly when each is a present string, with no repeats; the result is the context minus those names |
| Serialization.StripPrivate | jaseci_core/jaseci/element.py:143-146 | The `_private` deletion; `ContextPrivateStripped` and `DeleteKeysSpec` show the listed keys are removed, and a missing or repeated key raises |
| Serialization.ContextPrivateStripped | jaseci_core/jaseci/element.py:143-146 | A non-detailed `context` with a `_private` list is serialised without the listed keys, and raises when a listed key is missing or repeated |
| Serialization.ExpandIdsSpec | jaseci_core/jaseci/element.py:147-150 | Expanding an id list succeeds exactly when the hook holds every id and each object serialises; the result is each object's shallower serialisation, in list order |
| Serialization.IdListExpansion | jaseci_core/jaseci/element.py:147-150 | At depth 0 an id list is copied unchanged; at depth > 0 it becomes the list of the objects' serialisations at depth − 1 |
| Serialization.ChildIsShallow | jaseci_core/jaseci/element.py:149-150 | An embedded object is serialised with `detailed` off: only key fields, and no further expansion when those hold no id list |
| Serialization.FlatValueStaysFlat | jaseci_core/jaseci/element.py:147 | Only id lists are expanded; every other value is serialised as a plain value |
| Serialization.Flat | jaseci_core/jaseci/element.py:131-151 | The flat wire form keeps every field's name and value in order |
| Serialization.DetailedFlat | jaseci_core/jaseci/element.py:131-151 | `serialize(0, detailed=True)` never raises and gives every public attribute with its value, in order |
| Serialization.Decode | jaseci_core/jaseci/element.py:96 | Decoding a flat wire record gives one field per entry, with the same name and value |
| Serialization.DecodeFlat | jaseci_core/jaseci/element.py:96 | Decoding the flat wire form of a record gives the record back (the JSON round trip `duplicate` relies on) |
| Loading.SetAttr | jaseci_core/jaseci/element.py:166 | One `setattr`; `LoadRejectsProperty` shows `id` and `timestamp` raise, and `LoadAssigns` that a plain name is assigned |
| Loading.LoadAll | jaseci_core/jaseci/element.py:162-166 | `json_load`: one `setattr` per key until the first exception; `LoadAssigns`, `LoadKeepsOrder`, `LoadPreservesShape` and `LoadOwnValues` state its effect |
| Loading.LoadAssigns | jaseci_core/jaseci/element.py:162-166 | Loading a blob of plain names without repeats never raises; each blob key reads its blob value, and every other attribute is unchanged |
| Loading.LoadKeepsOrder | jaseci_core/jaseci/element.py:165-166 | The attribute names before `json_load` are a prefix of the names after it |
| Loading.LoadPreservesShape | jaseci_core/jaseci/element.py:162-166 | `json_load` keeps the record free of repeated names and property names, even when it stops with an exception |
| Loading.LoadOwnValues | jaseci_core/jaseci/element.py:162-166 | Loading a blob of plain names whose every key already holds that value never raises and leaves the element unchanged |
| Loading.LoadRejectsProperty | jaseci_core/jaseci/element.py:63-65 | A blob whose first key is `id` or `timestamp` raises `AttributeError` (the setter calls `.urn` or `.isoformat()` on a JSON value), and nothing is written |
| Equivalence.CompareFrom | jaseci_core/jaseci/element.py:108-113 | The attribute loop of `is_equivalent`; `CompareFromTrue`, `CompareFromRaises` and `CompareFromDefined` give when it answers True and when it raises |
| Equivalence.Equivalent | jaseci_core/jaseci/element.py:102-113 | `is_equivalent`; `EquivalentTrue`, `EquivalentDefined` and `TypeMismatch` give its answer |
| Equivalence.CompareFromTrue | jaseci_core/jaseci/element.py:108-113 | The attribute loop returns True exactly when every compared attribute is present on the other object with an equal value |
| Equivalence.EquivalentTrue | jaseci_core/jaseci/element.py:102-113 | `is_equivalent` is True exactly when `j_type`s are equal and every public attribute except `jid` and `j_timestamp` matches |
| Equivalence.CompareFromRaises | jaseci_core/jaseci/element.py:111 | The attribute loop raises only `AttributeError`, and only when a compared attribute is missing on the other object |
| Equivalence.CompareFromDefined | jaseci_core/jaseci/element.py:108-113 | When the other object has every compared attribute, the attribute loop does not raise |
| Equivalence.EquivalentDefined | jaseci_core/jaseci/element.py:102-113 | With equal `j_type`s and every compared attribute present on the other object, the answer is whether all of them match |
| Equivalence.TypeMismatch | jaseci_core/jaseci/element.py:106-107 | Objects with different `j_type` are not equivalent, whatever their other attributes |
| Equivalence.Reflexive | jaseci_core/jaseci/element.py:102-113 | Every well-formed element is equivalent to itself |
| Equivalence.CompareFromCongruent | jaseci_core/jaseci/element.py:108-113 | The loop's result depends only on the other object's compared attributes |
| Equivalence.CompareFromSkipsAssign | jaseci_core/jaseci/element.py:109-110 | Changing this object's `jid`, `j_timestamp` or a private attribute does not change the loop's result |
| Equivalence.AssignSameCompared | jaseci_core/jaseci/element.py:109-110 | Changing an attribute that is not compared leaves the compared attributes as they were |
| Equivalence.IgnoresIdentity | jaseci_core/jaseci/element.py:110 | `is_equivalent` does not depend on either object's identifier or timestamp |
| Payload.PayloadOf | jaseci_core/jaseci/element.py:121-128 | The payload holds only fields of the object whose names are public and not among a plain element's members |
| Payload.PayloadStep | jaseci_core/jaseci/element.py:123-125 | The payload of a suffix is its first field, when that field is selected, followed by the payload of the rest |
| Payload.PayloadNames | jaseci_core/jaseci/element.py:121-125 | A name is in the payload exactly when the object has it, it is public, and a plain element does not have it |
| Payload.PayloadValueAt | jaseci_core/jaseci/element.py:127-128 | Each payload entry carries the value `getattr` reads for its name |
| Payload.PayloadGetattr | jaseci_core/jaseci/element.py:126-128 | The second loop's k-th step reads an existing attribute and extends the payload by exactly that entry |
| Payload.PayloadValues | jaseci_core/jaseci/element.py:126-128 | Every payload entry carries the current value of its attribute |
| Payload.PayloadLoadsBack | jaseci_core/jaseci/element.py:115-129 | Loading an element's own payload back into it never raises and changes nothing (the "saving and loading" the docstring promises) |
| Duplication.DuplicateAttrs | jaseci_core/jaseci/element.py:94-98 | The copy's record; `DuplicateFacts` shows it has the new id and timestamp, the same compared attributes, and is equivalent both ways |
| Duplication.DuplicateCopies | jaseci_core/jaseci/element.py:94-99 | The duplicate agrees with the original on every compared attribute |
| Duplication.DuplicateIdentity | jaseci_core/jaseci/element.py:95-98 | The duplicate keeps its own fresh identifier and carries the new timestamp |
| Duplication.DuplicateShaped | jaseci_core/jaseci/element.py:94-98 | The duplicate has every base attribute and no property names |
| Duplication.DuplicateEquivalent | jaseci_core/jaseci/element.py:88-113 | The duplicate and the original are equivalent in both directions |
| Duplication.DuplicateFacts | jaseci_core/jaseci/element.py:88-100 | All the above together: new id, new timestamp, the same compared attributes, and equivalence both ways |
| Describe.Str | jaseci_core/jaseci/element.py:168-173 | `__str__`; `StrDefined` gives when it raises and `StrOf` and `SplitDescription` its text |
| Describe.StrDefined | jaseci_core/jaseci/element.py:168-173 | `str()` raises exactly when one of `j_type`, `kind`, `name` and `jid` is missing or is not a string |
| Describe.StrOf | jaseci_core/jaseci/element.py:172-173 | `str()` is `j_type:kind:name:jid` |
| Describe.CanonicalHasNoColon | jaseci_core/jaseci/element.py:172-173 | The hex form of an identifier contains no colon |
| Describe.SplitJoined | jaseci_core/jaseci/element.py:172-173 | Splitting the text on `:` gives back type, kind, name, `urn`, `uuid` and the hex identifier, when the first three contain no colon |
| Describe.SplitDescription | jaseci_core/jaseci/element.py:168-173 | The same for an element: the description splits on `:` into type, kind, name, `urn`, `uuid` and the identifier's hex form |
| Elements.StripContext | jaseci_core/jaseci/element.py:143-146 | The deletion loop over `_private` computes `StripPrivate`, the specification whose meaning `DeleteKeysSpec` gives |
| Elements.Element.constructor | jaseci_core/jaseci/element.py:46-57 | The new element's record is the six constructor attributes, it is well formed, and it is filed in the hook under its new id exactly when `auto_save` is set |
| Elements.Element.SaveAs | jaseci_core/jaseci/element.py:56-57 | The constructor's `save`: an element whose `jid` parses to u is filed in the hook under u |
| Elements.Element.Save | jaseci_core/jaseci/element.py:57 | `save` files the object under its identifier, and raises without change when `jid` does not parse |
| Elements.Element.SetId | jaseci_core/jaseci/element.py:63-65 | The `id` setter stores the URN; the getter then returns the UUID |
| Elements.Element.SetOwnerId | jaseci_core/jaseci/element.py:73-78 | The `owner_id` setter stores the owner's URN or `None`; the getter then returns it |
| Elements.Element.SetTimestamp | jaseci_core/jaseci/element.py:84-86 | The `timestamp` setter stores the given time text |
| Elements.Element.Serialize | jaseci_core/jaseci/element.py:131-151 | The loop over the attributes computes `SerializeAttrs` over the hook's current objects |
| Elements.Element.SerializeField | jaseci_core/jaseci/element.py:142-150 | One iteration: the copy, the `_private` strip and the id-list expansion, as `SerializeValue` |
| Elements.Element.ExpandIdList | jaseci_core/jaseci/element.py:147-150 | The loop over an id list computes `ExpandIds`: each object looked up in the hook and serialised at depth − 1, or the first missing one reported |
| Elements.Element.JsonLoad | jaseci_core/jaseci/element.py:162-166 | The `setattr` loop ends in the state and exception `LoadAll` gives, and keeps the element well formed |
| Elements.Element.PayloadFields | jaseci_core/jaseci/element.py:121-125 | The first loop collects exactly the names of the payload, in attribute order |
| Elements.Element.JsciPayload | jaseci_core/jaseci/element.py:115-129 | The two loops produce exactly the payload record |
| Elements.Element.DetailedRecord | jaseci_core/jaseci/element.py:96 | `json(detailed=True)` read back gives exactly the public attributes with their values, in order, and never raises |
| Elements.Element.Restore | jaseci_core/jaseci/element.py:96-99 | The copy ends up with the loaded record, its own identifier and the new timestamp, and is saved under that identifier |
| Elements.Element.Copy | jaseci_core/jaseci/element.py:94-99 | The steps of `duplicate` give a fresh element of the same class, saved under the new id, whose record is `DuplicateAttrs` |
| Elements.Element.IsEquivalent | jaseci_core/jaseci/element.py:102-113 | `is_equivalent` on two live elements is `Equivalent` of their records, which `EquivalentTrue` characterises |
| Elements.Element.Duplicate | jaseci_core/jaseci/element.py:88-100 | `duplicate` gives a fresh saved element with a new id and timestamp that is equivalent to the original both ways |
| IdList.Add | backend/jaseci/jaseci/core/tests/test_node.py:62 | `add_obj` makes the id present and adds no other |
| IdList.Without | backend/jaseci/jaseci/core/tests/test_node.py:34-37 | Removing a set of ids keeps exactly the other ids |
| IdList.Remove | backend/jaseci/jaseci/core/tests/test_node.py:90 | Removing one id keeps exactly the other ids |
| IdList.AddKeepsNoDuplicates | backend/jaseci/jaseci/core/tests/test_node.py:62 | `add_obj` keeps an id list free of repeats and leaves the earlier entries in place |
| IdList.WithoutKeepsNoDuplicates | backend/jaseci/jaseci/core/tests/test_node.py:34-37 | Removal keeps an id list free of repeats |
| IdList.WithoutAbsent | backend/jaseci/jaseci/core/tests/test_node.py:34-37 | Removing ids that are not present changes nothing |
| IdList.RemoveAdd | backend/jaseci/jaseci/core/tests/test_node.py:78-91 | Adding a new id and removing it again gives the list back |
| IdList.WithoutAppend | backend/jaseci/jaseci/core/tests/test_node.py:34-37 | Removal distributes over appending one id |
| IdList.FirstNamed | backend/jaseci/jaseci/core/tests/test_node.py:64 | `get_obj_by_name` finds the first entry with that name, or reports that none has it |
| IdList.HasNamedExactly | backend/jaseci/jaseci/core/tests/test_node.py:67-68 | `has_obj_by_name` holds exactly when some entry has that name |
| IdList.DestroyNamedRemoves | backend/jaseci/jaseci/core/tests/test_node.py:70 | `destroy_obj_by_name` removes exactly the first entry with that name |
| IdList.RemoveAt | backend/jaseci/jaseci/core/tests/test_node.py:70 | In a list without repeats, cutting out position k is the same as removing its id |
| IdList.DestroyNamedGone | backend/jaseci/jaseci/core/tests/test_node.py:70-72 | When names are unique, no entry with that name is left after destroying it |
| Graph.Sources | backend/jaseci/jaseci/core/tests/test_node.py:28-29 | `inbound_nodes` yields exactly the source nodes of the known inbound edges, no more of them than edges |
| Graph.Targets | backend/jaseci/jaseci/core/tests/test_node.py:30 | The outbound neighbours are exactly the targets of the known outbound edges |
| Graph.EdgesTo | backend/jaseci/jaseci/core/tests/test_node.py:36-37 | The edges a detach removes are exactly the listed edges that end at the other node |
| Graph.EdgesFrom | backend/jaseci/jaseci/core/tests/test_node.py:34-35 | The edges an inbound detach removes are exactly the listed edges that start at the other node |
| Graph.SourcesAppend | backend/jaseci/jaseci/core/tests/test_node.py:26-29 | A newly attached inbound edge adds its source at the end of `inbound_nodes`, so attach order is kept |
| Graph.SourcesFrame | backend/jaseci/jaseci/core/tests/test_node.py:24-27 | Adding an edge that a node does not list leaves that node's `inbound_nodes` unchanged |
| Graph.DetachedTargets | backend/jaseci/jaseci/core/tests/test_node.py:36-37 | After an outbound detach, the other node is no longer an outbound neighbour |
| Graph.DetachedSources | backend/jaseci/jaseci/core/tests/test_node.py:34-35 | After an inbound detach, the other node is no longer an inbound neighbour |
| Graph.EdgesToAttach | backend/jaseci/jaseci/core/tests/test_node.py:24 | Attaching adds exactly the new edge to those that end at the target |
| Graph.DetachUndoesAttach | backend/jaseci/jaseci/core/tests/test_node.py:24-37 | Detaching right after a single attach restores both edge lists and the hook's edges |
| Graph.Resolve | backend/jaseci/jaseci/core/tests/test_node.py:80-83 | `obj_list` gives the objects of the ids in list order when the hook holds them all |
| Graph.ActionNames | backend/jaseci/jaseci/core/tests/test_node.py:60-64 | Each stored action's name is the one it was created with |
| Graph.NodeRecordFields | backend/jaseci/jaseci/core/tests/test_node.py:32 | A node's attribute record holds its name, kind, identifier, type `node`, context, dimension and id lists |
| Graph.NodeFieldNamesDistinct | backend/jaseci/jaseci/core/tests/test_node.py:32 | A node's attribute names are distinct |
| Graph.NodeRecordNames | backend/jaseci/jaseci/core/tests/test_node.py:32 | Every node record has the same attribute names in the same order |
| Graph.NodeRecordDistinct | backend/jaseci/jaseci/core/tests/test_node.py:32 | A node record has no repeated names |
| Graph.NodeRecordsMatch | backend/jaseci/jaseci/core/tests/test_node.py:38-40 | Nodes in the same state match on all compared attributes, whatever their ids and creation times |
| Graph.MismatchAt | backend/jaseci/jaseci/core/tests/test_node.py:32 | A compared attribute with a different value at the same position makes records differ |
| Graph.NodeRecordsDiffer | backend/jaseci/jaseci/core/tests/test_node.py:32 | Nodes in different states do not match |
| Graph.NodeEquivalence | backend/jaseci/jaseci/core/tests/test_node.py:32-40 | `is_equivalent` on two nodes never raises, and is True exactly when their states are equal |
| Graph.NodeRecordsAligned | backend/jaseci/jaseci/core/tests/test_node.py:32-40 | Two node records are both of type `node`, and each compared name of one is present in the other |
| Graph.Hook.NewAction | backend/jaseci/jaseci/core/tests/test_node.py:60-61 | Creating an action stores it under its new id with the given name and value |
| Graph.Hook.NewEdge | backend/jaseci/jaseci/core/tests/test_node.py:103-105 | The edge constructor keeps the given name and endpoints and stores the edge under its new id |
| Graph.Node.constructor | backend/jaseci/jaseci/core/tests/test_node.py:20-23 | A new node has the given name and dimension, an empty context and empty id lists, and is stored in the hook under its new id |
| Graph.Node.IsEquivalent | backend/jaseci/jaseci/core/tests/test_node.py:32-40 | `is_equivalent` on two nodes is `Equivalent` of their records; `NodeEquivalence` shows it never raises and holds exactly when their states are equal |
| Graph.Node.InboundNodes | backend/jaseci/jaseci/core/tests/test_node.py:28-29 | The nodes the inbound edges start at, in list order; `Sources` and `Resolve` state it |
| Graph.Node.IsAttachedOut | backend/jaseci/jaseci/core/tests/test_node.py:30 | Some outbound edge ends at the other node; `Targets` states it |
| Graph.Node.IsAttachedIn | backend/jaseci/jaseci/core/tests/test_node.py:31 | Some inbound edge starts at the other node; `Sources` states it |
| Graph.Node.OwnerNodes | backend/jaseci/jaseci/core/tests/test_node.py:79-81 | The owner nodes in list order, by `Resolve` |
| Graph.Node.MemberNodes | backend/jaseci/jaseci/core/tests/test_node.py:82-84 | The member nodes in list order, by `Resolve` |
| Graph.Node.SetContext | backend/jaseci/jaseci/core/tests/test_node.py:49 | Writing a context key changes only that key |
| Graph.Node.AttachOutbound | backend/jaseci/jaseci/core/tests/test_node.py:24-25 | With equal dimensions a new edge from this node to the other is recorded on both and in the hook, and otherwise nothing changes |
| Graph.Node.AttachInbound | backend/jaseci/jaseci/core/tests/test_node.py:26-27 | The same with the edge pointing from the other node to this one |
| Graph.Node.DetachOutbound | backend/jaseci/jaseci/core/tests/test_node.py:36-37 | Removes every edge from this node to the other, from both nodes and from the hook, and the nodes are then not attached |
| Graph.Node.DetachInbound | backend/jaseci/jaseci/core/tests/test_node.py:34-35 | The same for edges from the other node to this one |
| Graph.Node.MakeMemberOf | backend/jaseci/jaseci/core/tests/test_node.py:78-88 | When the dimensions allow it, each node is recorded in the other's owner and member lists, and otherwise nothing changes |
| Graph.Node.LeaveMembershipOf | backend/jaseci/jaseci/core/tests/test_node.py:90-91 | Leaving removes each node from the other's list |
| Graph.Node.AddEntryAction | backend/jaseci/jaseci/core/tests/test_node.py:62 | Adding an entry action puts its id in the list |
| Graph.Node.EntryActionByName | backend/jaseci/jaseci/core/tests/test_node.py:63-68 | The lookup finds an action exactly when one of the listed actions has that name, and the action found has that name |
| Graph.Node.HasEntryAction | backend/jaseci/jaseci/core/tests/test_node.py:67-68 | Some listed entry action has the name; `HasNamedExactly` states it |
| Graph.Node.DestroyEntryAction | backend/jaseci/jaseci/core/tests/test_node.py:70-72 | Destroying by name removes the first such action from the list and from the hook, or changes nothing when there is none |
| NodeTests.Connect | backend/jaseci/jaseci/core/tests/test_node.py:20-27 | The four attaches give exactly edges 1→2, 3→2, 2→1 and 2→3, each listed on both of its nodes |
| NodeTests.FirstDetach | backend/jaseci/jaseci/core/tests/test_node.py:34 | Detaching node 1's inbound edge from node 2 removes only edge 1→2 |
| NodeTests.SecondDetach | backend/jaseci/jaseci/core/tests/test_node.py:35 | Then detaching node 3 removes only edge 3→2 |
| NodeTests.ThirdDetach | backend/jaseci/jaseci/core/tests/test_node.py:36 | Then the outbound detach from node 1 removes only edge 2→1 |
| NodeTests.FourthDetach | backend/jaseci/jaseci/core/tests/test_node.py:37 | Then the last detach leaves no edge |
| NodeTests.DisconnectInbound | backend/jaseci/jaseci/core/tests/test_node.py:34-35 | The two inbound detaches leave only the edges from node 2 |
| NodeTests.DisconnectOutbound | backend/jaseci/jaseci/core/tests/test_node.py:36-37 | The two outbound detaches leave no edge at all |
| NodeTests.ConnectedQueries | backend/jaseci/jaseci/core/tests/test_node.py:28-32 | Once connected, node 2 has two inbound nodes, node 1 first; it is attached out to 3 and in to 1; and node 4 is not equivalent to it |
| NodeTests.DisconnectedEquivalences | backend/jaseci/jaseci/core/tests/test_node.py:38-40 | Once disconnected, nodes 4 and 2, 3 and 1, and 3 and 2 are equivalent |
| NodeTests.DisconnectedInbound | backend/jaseci/jaseci/core/tests/test_node.py:41-44 | Once disconnected, every node has no inbound node |
| NodeTests.NodeConnections | backend/jaseci/jaseci/core/tests/test_node.py:18-44 | Every assertion of `test_node_connections` holds |
| NodeTests.ContextEntry | backend/jaseci/jaseci/core/tests/test_node.py:46-55 | Every assertion of `test_add_context_to_node_and_destroy` holds |
| NodeTests.EntryActions | backend/jaseci/jaseci/core/tests/test_node.py:57-72 | Every assertion of `test_add_entry_action_to_node_and_destroy` holds |
| NodeTests.Membership | backend/jaseci/jaseci/core/tests/test_node.py:74-91 | Every assertion of `test_adding_and_removing_from_hdnodes` holds |
| NodeTests.DimensionsMustMatch | backend/jaseci/jaseci/core/tests/test_node.py:93-98 | Nodes of different dimensions are not attached |
| NodeTests.EdgeKeepsName | backend/jaseci/jaseci/core/tests/test_node.py:100-106 | An edge built with a name keeps it |
| ApiTree.Get | jaseci_core/jaseci/jsctl/jsctl.py:105-107 | A dict lookup finds a value exactly when the key is present, and the value belongs to that key's entry |
| ApiTree.Put | jaseci_core/jaseci/jsctl/jsctl.py:105-108 | After `d[k] = v` the key reads `v` and every other key reads as before |
| ApiTree.PutKeys | jaseci_core/jaseci/jsctl/jsctl.py:105-108 | An assignment keeps the key order, and a new key goes last |
| ApiTree.PutPresent | jaseci_core/jaseci/jsctl/jsctl.py:108 | Assigning to an existing key keeps the key order |
| ApiTree.PutAbsent | jaseci_core/jaseci/jsctl/jsctl.py:106 | Assigning to a new key appends it |
| ApiTree.PutEntries | jaseci_core/jaseci/jsctl/jsctl.py:105-108 | An assignment adds no entry other than the one assigned |
| ApiTree.PutUnique | jaseci_core/jaseci/jsctl/jsctl.py:105-108 | An assignment keeps the keys unique |
| ApiTree.GetUnique | jaseci_core/jaseci/jsctl/jsctl.py:143-144 | With unique keys, looking up an entry's key gives that entry's value |
| ApiTree.FuncStr | jaseci_core/jaseci/jsctl/jsctl.py:98 | The function name is the API name minus its `api_` or `admin_api_` prefix |
| ApiTree.GroupPath | jaseci_core/jaseci/jsctl/jsctl.py:99 | An API name has a group path of at least one component |
| ApiTree.GroupPathSpellsName | jaseci_core/jaseci/jsctl/jsctl.py:96-99 | Joining the group path with `_` gives the function name, and with the prefix the API name |
| ApiTree.LeafAt | jaseci_core/jaseci/jsctl/jsctl.py:103-108 | What a path reaches through the groups is always a leaf |
| ApiTree.InsertAt | jaseci_core/jaseci/jsctl/jsctl.py:103-108 | The walk that files one leaf; `InsertReaches`, `InsertKeeps`, `InsertClean` and `InsertWellFormed` state it, and `LeafGroupRaises` shows its `AttributeError` |
| ApiTree.InsertReaches | jaseci_core/jaseci/jsctl/jsctl.py:103-108 | After a successful insertion the path reaches the new leaf |
| ApiTree.InsertKeeps | jaseci_core/jaseci/jsctl/jsctl.py:103-108 | An insertion leaves the leaf at every other path free of `leaf` as it was |
| ApiTree.EmptyHasNoLeaf | jaseci_core/jaseci/jsctl/jsctl.py:94 | The empty tree has no leaf |
| ApiTree.Extract | jaseci_core/jaseci/jsctl/jsctl.py:89-109 | The fold over `dir()`; `ExtractClean`, `ExtractKeeps`, `ExtractLast` and `ExtractWellFormed` state it |
| ApiTree.ExtractApiTree | jaseci_core/jaseci/jsctl/jsctl.py:89-109 | The loop over `dir()` computes `Extract`, the fold of one insertion per API name, which stops at the first error |
| ApiTree.ApiNames | jaseci_core/jaseci/jsctl/jsctl.py:96 | The filter keeps exactly the listed names with an API prefix |
| ApiTree.ExtractIgnores | jaseci_core/jaseci/jsctl/jsctl.py:95-96 | Names without an API prefix do not affect the tree |
| ApiTree.PutWellFormed | jaseci_core/jaseci/jsctl/jsctl.py:105-108 | Assigning a well-formed value keeps a dict well formed (unique keys at every level) |
| ApiTree.PutClean | jaseci_core/jaseci/jsctl/jsctl.py:105-108 | Assigning a leaf under `leaf`, or a clean group under another key, keeps a dict clean |
| ApiTree.CleanChild | jaseci_core/jaseci/jsctl/jsctl.py:105-107 | In a clean dict, every key other than `leaf` holds a clean group |
| ApiTree.InsertClean | jaseci_core/jaseci/jsctl/jsctl.py:103-108 | Inserting along a path without `leaf` into a clean dict never fails and keeps it clean |
| ApiTree.ExtractClean | jaseci_core/jaseci/jsctl/jsctl.py:89-109 | When no group path contains `leaf`, extraction never raises and gives a clean tree |
| ApiTree.ExtractKeeps | jaseci_core/jaseci/jsctl/jsctl.py:89-109 | A path free of `leaf` that no listed name maps to keeps the leaf it had |
| ApiTree.ExtractLast | jaseci_core/jaseci/jsctl/jsctl.py:89-109 | The leaf at a name's path (free of `leaf`) is that name's, with its signature, when no later name has the same path |
| ApiTree.InsertWellFormed | jaseci_core/jaseci/jsctl/jsctl.py:103-108 | Insertion keeps a tree well formed |
| ApiTree.ExtractWellFormed | jaseci_core/jaseci/jsctl/jsctl.py:89-109 | The extracted tree is well formed |
| ApiTree.ApiNamePath | jaseci_core/jaseci/jsctl/jsctl.py:96-98 | `api_`f is an API name whose function name is f |
| ApiTree.AdminNamePath | jaseci_core/jaseci/jsctl/jsctl.py:96-98 | `admin_api_`f is an API name whose function name is f |
| ApiTree.AdminAndUserShareAPath | jaseci_core/jaseci/jsctl/jsctl.py:98-99 | `admin_api_`f and `api_`f have the same group path, so the later one's leaf replaces the earlier's |
| ApiTree.LeafGroupIsOverwritten | jaseci_core/jaseci/jsctl/jsctl.py:95-108 | `admin_api_`a`_leaf_`x sorts before `api_`a; it puts a leaf at [a, leaf, x], and the following `api_`a succeeds but removes that leaf |
| ApiTree.LeafGroupRaises | jaseci_core/jaseci/jsctl/jsctl.py:95-108 | `api_`a sorts before `api_`a`_leaf_`x, and extracting the two in that order raises `AttributeError` |
| ApiTree.SplitOf3 | jaseci_core/jaseci/jsctl/jsctl.py:99 | Three underscore-free parts joined with `_` split back into those parts |
| ApiCommands.Coerce | jaseci_core/jaseci/jsctl/jsctl.py:131 | `p_type(p_default)`; `CoerceTyped`, `CoerceFails`, `CoerceIdempotent` and `CoerceTextInt` state it |
| ApiCommands.CoerceTyped | jaseci_core/jaseci/jsctl/jsctl.py:126-131 | A default that converts has the option's type |
| ApiCommands.CoerceFails | jaseci_core/jaseci/jsctl/jsctl.py:131 | `int(d)` fails exactly for `None`, lists, dicts and text that is not an integer; `bool(d)` and `str(d)` never fail |
| ApiCommands.CoerceIdempotent | jaseci_core/jaseci/jsctl/jsctl.py:131 | Converting a converted default again changes nothing |
| ApiCommands.CoerceTextInt | jaseci_core/jaseci/jsctl/jsctl.py:131 | `int(str(n)) == n` |
| ApiCommands.OptionFor | jaseci_core/jaseci/jsctl/jsctl.py:124-135 | The option of one parameter; `OptionForFacts` states it |
| ApiCommands.OptionForFacts | jaseci_core/jaseci/jsctl/jsctl.py:123-135 | The option for a parameter is `-name`; it is required exactly when there is no default; a default is converted to the type; the type is int, bool or else str; it fails exactly when the default does not convert |
| ApiCommands.NonSelf | jaseci_core/jaseci/jsctl/jsctl.py:122-124 | The loop sees exactly the parameters other than `self` |
| ApiCommands.OptionsForEach | jaseci_core/jaseci/jsctl/jsctl.py:122-135 | Options are built exactly when every non-`self` parameter gives one, and then option i belongs to parameter i |
| ApiCommands.BuildCmd | jaseci_core/jaseci/jsctl/jsctl.py:112-136 | The loop over the signature computes `CommandFor`: a command named after the leaf key, calling its API, with one option per parameter |
| ApiCommands.PrependAssoc | jaseci_core/jaseci/jsctl/jsctl.py:122-135 | Collecting options one at a time gives the same list as collecting them at once |
| ApiCommands.CmdTreeBuilder | jaseci_core/jaseci/jsctl/jsctl.py:139-152 | The loop over a level's keys computes `BuildEntries` |
| ApiCommands.BuildEntries | jaseci_core/jaseci/jsctl/jsctl.py:139-152 | `cmd_tree_builder` of one level; `BuildSound`, `BuildComplete` and `BuildDocs` state what it builds |
| ApiCommands.EntryNode | jaseci_core/jaseci/jsctl/jsctl.py:144-152 | One key of a level: a command, a group, or the `KeyError`, `TypeError` or `AttributeError` the source raises there; `NodeOf` computes it |
| ApiCommands.NodeOf | jaseci_core/jaseci/jsctl/jsctl.py:144-152 | One iteration computes `EntryNode`: a command for a `leaf` entry, otherwise a documented group built recursively |
| ApiCommands.CommandPaths | jaseci_core/jaseci/jsctl/jsctl.py:139-152 | Each command is listed with its non-empty path of tree keys |
| ApiCommands.BuildSound | jaseci_core/jaseci/jsctl/jsctl.py:139-152 | Every command built corresponds to a leaf of the tree at the same path with the same API, and no enclosing dict holds a leaf |
| ApiCommands.BuildComplete | jaseci_core/jaseci/jsctl/jsctl.py:139-152 | Every leaf of the tree whose enclosing dicts hold no leaf becomes a command at its path |
| ApiCommands.BuildDocs | jaseci_core/jaseci/jsctl/jsctl.py:150 | Each group's docstring names its command path: "Group of `<cmd_str> <i>`", left-stripped |
| ApiCommands.SpacedPath | jaseci_core/jaseci/jsctl/jsctl.py:150 | From the root, the left-stripped text is the path's names joined with single spaces |
| ApiCommands.SpacedJoin | jaseci_core/jaseci/jsctl/jsctl.py:152 | The accumulated `cmd_str` is a space followed by the path joined with spaces |
| ApiRemote.RemotePath | jaseci_core/jaseci/jsctl/jsctl.py:49-52 | The path of `remote_api_call`; `RemotePathOfApi`, `NameOfRemotePath` and `RemotePathInjective` state it |
| ApiRemote.RemotePathOfApi | jaseci_core/jaseci/jsctl/jsctl.py:49-52 | A path is chosen exactly for API names; it is `/jac/` or `/admin/` followed by the underscore-joined group path |
| ApiRemote.NameOfRemotePath | jaseci_core/jaseci/jsctl/jsctl.py:49-52 | The API name can be read back from its remote path |
| ApiRemote.RemotePathOfName | jaseci_core/jaseci/jsctl/jsctl.py:49-52 | Every `/jac/` or `/admin/` path is the remote path of the name read from it |
| ApiRemote.RemotePathInjective | jaseci_core/jaseci/jsctl/jsctl.py:49-52 | Different API names call different remote paths |
| ApiRemote.StripSlash | jaseci_core/jaseci/jsctl/jsctl.py:162 | The trailing-slash strip of `login`; `StripSlashParts` and `StripSlashAgrees` state it |
| ApiRemote.StripSlashParts | jaseci_core/jaseci/jsctl/jsctl.py:162 | The strip fails exactly on an empty URL (`url[-1]` raises `IndexError`), and otherwise removes one trailing slash, if there is one |
| ApiRemote.StripSlashAgrees | jaseci_core/jaseci/jsctl/jsctl.py:162 | A URL given with or without a trailing slash is stored the same way |
| ApiRemote.TokenUrlAgrees | jaseci_core/jaseci/jsctl/jsctl.py:162-164 | With or without a trailing slash the token request goes to `<url>/user/token/` |
| WktNotes.WktNote | frontend/web/src/components/wkt-note-set.jsx:6-11 | `wkt_note`; `WktNoteMeans` gives when it throws and which items it keeps |
| WktNotes.WktNoteMeans | frontend/web/src/components/wkt-note-set.jsx:6-11 | The filter throws exactly when the item or its context is `null` or `undefined`; otherwise it keeps the item exactly when `wtype` is `"note"` and `status` is `"open"` or falsy |
| WktNotes.MissingStatusIsOpen | frontend/web/src/components/wkt-note-set.jsx:8-9 | A note without a status, or with a falsy status, is kept |
| WktNotes.ClosedNoteIsLeftOut | frontend/web/src/components/wkt-note-set.jsx:8-10 | A note whose status is any non-empty text other than `"open"` is left out |
| WktNotes.OtherTypeIsLeftOut | frontend/web/src/components/wkt-note-set.jsx:9-10 | An item whose `wtype` is not `"note"` is left out, whatever its status |
| Strings.JoinSplit | jaseci_core/jaseci/jsctl/jsctl.py:99 | Joining the parts of `str.split(c)` with `c` gives the string back |
| Strings.SplitJoin | jaseci_core/jaseci/jsctl/jsctl.py:99 | Splitting parts that do not contain `c`, once joined, gives the parts back |
| Strings.ParseIntText | jaseci_core/jaseci/jsctl/jsctl.py:131 | `int()` reads back the decimal text `str()` writes for every integer |
| Strings.LStrip | jaseci_core/jaseci/jsctl/jsctl.py:150 | `lstrip()` removes exactly the leading spaces |

## Left out

- The JSON text of `json()`, `json.dumps` in `jsci_payload`, and `json_str_to_jsci_dict` are not modelled. Records go in and out as structured values. `jsci_payload` returns the record it would dump.
- `uuid.uuid4()` and `datetime.utcnow()` are parameters: the caller supplies the fresh identifier and the time text. Time is opaque text, and `fromisoformat` parsing is not modelled.
- `uuid.UUID` is modelled for the canonical hyphenated hex form, with or without `urn:uuid:`. The other spellings Python accepts (braces, no hyphens) are not modelled.
- `hookable`, `mem_hook`, `id_list` and node.py are not part of this model. The hook is a map from identifiers to live objects. `save` files an object under its id; `get_obj` reads it back.
- The node, edge and action classes are abstract. Their field names and the membership rule between dimensions are chosen, because node.py is outside this model. The membership rule is a parameter constrained only as far as the test needs: dimension 0 may join 1 but not 2.
- Graph.Resolve skips identifiers the hook does not hold, rather than modelling the failure `get_obj` would raise.
- Attribute values cover None, integers, text, lists, dicts and id lists. Floats, booleans and callables in `vars(self)` are not modelled, so the `callable(...)` test of `is_equivalent` has no case.
- Elements.Element.JsciPayload: requires the element to be well formed (its invariant), which the Python method does not check.
- Describe.StrOf: the docstring of `__str__` says `type:name:kind`; the code, which the model follows, gives `type:kind:name:jid`.
- The `jsctl` session, `pickle`, `click` registration, the `requests` calls, HTTP status handling and `get_api_doc` are I/O or foreign code and are not modelled. A command is a value holding its name, API name and options.
- `inspect.signature` and `get_api_signature` are parameters. A signature is a list of parameters, each with a name, an optional default and an annotation.
- ApiCommands.BuildCmd: click applies option decorators in reverse, so its help order is not modelled. The model keeps the signature order.
- ApiCommands.BuildCmd: click commands registered before an error are not kept. The model reports only the error.
- Defaults are None, booleans, integers, text, empty lists and empty dicts. Other default types are not modelled.
- Strings.ParseInt: `int()` on text is modelled for an optional sign followed by decimal digits. Surrounding whitespace and `_` separators are not modelled.
- Strings.LStrip: strips only spaces, which is all `cmd_str` can start with. Other whitespace is not modelled.
- Equivalence.CompareFrom: `getattr(obj, i)` is modelled as a read of `obj`'s instance attributes only. When `obj` lacks the attribute but its class has a member of that name (`serialize`, say), Python returns the class member and `is_equivalent` answers False; the model raises `AttributeError`. The class members of `hookable` and of derived classes are not part of this model.
- Payload.ElementMembers: `dir()` of a plain element also lists the public members `hookable` defines (`save`, for one). hookable.py is outside this model, so those names are not in the set, and an attribute with such a name would wrongly be kept in the payload.
- ApiTree.ExtractApiTree: the cursor walk through nested dicts that alias each other is modelled as a function on values (`InsertAt`). The outer loop over `dir()` is a method. The order of `dir()` is the given order of names.
- ApiRemote.RemotePathOfApi: a name with neither prefix leaves `path` unbound in the source; the model returns `UnboundLocalError` for it.
- WktNotes.WktNoteMeans: JavaScript numbers are integers, so NaN is not modelled. Reading these properties of a boolean, number or string gives `undefined`.
