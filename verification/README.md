# Verified model of the GridAPPS-D IEEE 2030.5 server core

This project models, in Dafny, the in-memory resource store of the IEEE 2030.5 server, the two state
machines that run on it (mirror metering and DER control events), the href language that joins them,
and the identifier, timer, paging and initialisation code around them. Code that the server writes as
classes and loops is written here as classes and loops, each method proved equal to a function of the
state before the call; what the server promises is then proved about those functions, for every input
and every run.

`dafny verify dfyconfig.toml` checks everything.

## Modules

| modules | what they model |
|---|---|
| `Text`, `Wrappers` | `split`, `join`, `replace`, `int()` and `str()` on hrefs |
| `ListStore`, `ListAdapter`, `ListPages` | `ResourceListAdapter`: its state as a value, the class itself, the pages it answers |
| `MeteringHrefs`, `MeteringUris` | the builders and the parser of metering hrefs; which list a uri names |
| `MeteringSpec`, `Metering` | posting mirror usage points, meter readings, reading sets and readings |
| `MeteringInvariant`, `MeteringSteps`, `MeteringSaves`, `MeteringPoints`, `MeteringServer` | the whole-store invariant, kept by every request |
| `MeteringTheorems`, `MeteringLocations`, `MeteringRoutes`, `MeteringContents`, `MeteringDetails`, `MeteringEntries`, `MeteringNewPoints`, `MeteringRuns`, `MeteringPages`, `MeteringReadings`, `MeteringTypes`, `Readings` | the main results on metering |
| `ProgramHrefs`, `EdevHrefs` | program, event and end-device hrefs |
| `DerEvents`, `DerServer` | event posts, the clock loop, the handlers of its signals |
| `DerInvariant`, `DerClock`, `DerTheorems`, `DerPosts` | the invariant of every run, active lists, the clock thread, replies |
| `DerSolo`, `DerLifecycle`, `DerMissed` | the life of each event, and which events are missed |
| `DerReposts`, `DerRepost`, `DerStatuses` | which reposts of a control and which posted statuses are safe |
| `Initialise`, `ServerRuns` | the loops of `initialize_2030_5`, and event runs on the server they set up |
| `Paging`, `Sfdi`, `Timer` | list pages and sorting, device identifiers, timers |

## What the proofs found

Where a property the server relies on is not unconditional, the exact condition is proved.

* **The index assertion can fail** (`adapters.py:133`). The replica list of a path is found by
  replacing every `mup` in it (`adapters.py:228`), and the route accepts any path of letters, digits
  and underscores below `/mup`. The paths `/mup_mup_0` and `/mup_upt_0` both reach point 0, keep
  separate mirror lists, and share one replica list. `AssertionSafeIff`: over all runs that post
  meter readings to a set of paths only, the assertion can fail if and only if two different paths
  of the set that end in an integer become equal under that replacement. Posts to the hrefs the
  server itself hands out are always safe, whatever else was posted (`PostMeterReadingAny`), and no
  failure of the assertion harms them: the trees below the points agree, and what they hold is
  served, after every run of routed requests (`RunKeeps` and what rests on it).
* **The reading upsert depends on the client from the third post of a localID on**, because an update
  stores the posted reading with the href it came with (`adapters.py:52-53`). `UpsertReadings` and, over
  whole runs, `RunUpsertIff`: the list holds each localID once, with what was posted last, if and only
  if each such post follows one of its localID whose own href ends in the slot of its entry. Without
  hrefs the third post raises (`UpsertPlainReadings`); another href sends it to a key of the client's
  choice, and the localID is then held twice (`PostedHrefDuplicates`).
* **The Location of a posted meter reading leads back to it only from paths of two parts.**
  `MeterLocationIff`: posting to `/mup_x_0` answers a Location that no GET finds, and posting to
  `/mup_0_mr_1` one that always reads entry 1.
* **A posted reading set with an href of its own is never an update** (`adapters.py:67-86`): it is
  appended like any other, or raises before anything is stored (`PostedSetHrefNeverUpdates`).
* **A usage point cannot be read** through its own href: the handler takes `/upt_0` for a list
  (`meteringfs.py:60-66`) and `get_resource_list` raises KeyError (`UsagePointNotServed`).
* **Reading types cannot be read** through either of the two links that are handed out for them
  (`ReadingTypesNotServed`).
* **An event of a program without an indexed active list ends the clock thread** when it would start
  (`server_constructs.py:116-122`); a tick is survived if and only if no such event has the time in
  its window (`ThreadSurvivesIff`, over runs `RunSurvivesIff`). Only the programs listed in the
  configuration have an indexed list (`IndexedAreConfigured`).
* **A control posted with currentStatus 1** is signalled as ended without a start, and stands beside an
  active list that does not hold it; every other posted status is safe. `PostedStatusIff`: the signals
  of all events stay in order if and only if the status is not 1. `PostAgreesIff`: a new control
  keeps the active list of its program in agreement if and only if its status is not 1, or its mRID
  is listed already.
* **Reposting the mRID of the first control of a program** is taken for a new control
  (`admin_endpoints.py:565`). Once it starts, the two share one EventStatus object, and signals no
  longer match statuses. Call a run orderly when its clock never goes back, no control is posted as
  active, and none is such a repost that can still start. `RepostSafeIff` and `ConfiguredRepostIff`:
  every orderly continuation stays safe if and only if the post is no such repost, or its window is
  shorter than two seconds, or over. The active lists agree with the statuses all the same
  (`ActiveListsAgree`).
* **An event no longer than the pace of the clock can be missed**; a longer one never is (`NoMissIff`).
* **Initialisation gets through a new device with DERs only if** there are a default program with a
  primacy, a default control, and exactly one function set assignment on that device: without one
  `get_list` raises, and of several only the first is linked to a program list. All DERs of the device
  are then linked to the program made for the first of them (`AddDersSound`, `InitialisationSound`).
* **Curve-list hrefs are printed but not parsed** (`hrefs.py:348-352`), part of
  `ProgramHrefRoundTrip`.
* **A zero limit means "all the rest"** to `Adapter.fetch_all` and "none" to `get_resource_list`
  unless both offsets are zero as well (`PagersAgree`).
* **The check digit of an SFDI notices one changed digit, never two exchanged ones** (`OneDigitChanged`,
  `ExchangeUnnoticed`).

Where code and documentation disagree the model follows the code: `tests/test_hrefs.py:88` expects
`/edev_0_der_0_dstat` to be parsed, while the DER subtypes of `hrefs.py` hold no such value and the
parser raises; the event rules in `models/sep.py:473-477` let a server show status 0 only before the
start, which the code meets, and want an event posted inside its window to start active, which the
code does at the next tick.

## Model

| member | source | states |
|---|---|---|
| Text.SubInjective | ieee_2030_5/hrefs.py:683-722 | appending a part that holds no separator can be undone: equal hrefs have equal bases and equal parts |
| Text.SplitJoin | ieee_2030_5/hrefs.py:489-490 | splitting a joined href gives back its parts, provided none holds a separator |
| Text.JoinSplit | ieee_2030_5/hrefs.py:568-573 | joining the parts of any text gives back the text |
| Text.StrIntOfCanonical | ieee_2030_5/hrefs.py:473-498 | `int()` reads a text and `str()` prints it back unchanged when it is canonical |
| Text.PyIntReads | ieee_2030_5/hrefs.py:489-498 | `int()` takes digits with or without a sign and nothing else; leading zeros and a plus do not count, a minus negates |
| Text.DecDigits | ieee_2030_5/hrefs.py:473-487 | a numeral is written with the ten usual digits, the most significant first |
| ListStore.RunsKeepListsDense | ieee_2030_5/adapters/__init__.py:193-261 | any run of initialisations, appends, appends of whole lists, numbering appends and sets at existing keys, overwriting or not, keeps the keys of every list exactly 0..n-1 in insertion order |
| ListStore.AppendEachStores | ieee_2030_5/adapters/__init__.py:239-245 | a List object is stored as one entry for each element, in order, up to the first of another class, at which a ValueError is raised |
| ListStore.AppendNumberedAtOwnKey | ieee_2030_5/adapters/__init__.py:199-210 | a numbering append overwrites nothing, touches no other list, and the href it gives ends in the key under which the object is found |
| ListStore.RemoveIsSafeOnlyAtTheEnd | ieee_2030_5/adapters/__init__.py:402-404 | an append after a removal keeps every survivor if and only if the removed key was the last; otherwise it overwrites the last survivor |
| ListAdapter.ResourceListAdapter.InitializeUri | ieee_2030_5/adapters/__init__.py:193-197 | the class is registered and no list changes, unless the list has items and another class |
| ListAdapter.ResourceListAdapter.Append | ieee_2030_5/adapters/__init__.py:247-261 | the object becomes the last entry of its list, under the next key if the keys are dense, and no other list changes; a ValueError, with nothing changed, exactly when the class differs from the registered one, or none is registered and the list has items |
| ListAdapter.ResourceListAdapter.AppendList | ieee_2030_5/adapters/__init__.py:231-245 | the branch for a List object: a ValueError if the uri has a class already; else one entry for each element up to the first of another class, which raises |
| ListAdapter.ResourceListAdapter.AppendAndIncrementHref | ieee_2030_5/adapters/__init__.py:199-210 | a TypeError exactly when the first part of the uri is an integer; else the object is appended under an href that ends in the size of the list, and no other list changes |
| ListAdapter.ResourceListAdapter.GetItemByProp | ieee_2030_5/adapters/__init__.py:270-274 | the loop finds the first item with the value, or misses, or meets an item without the attribute first |
| ListAdapter.ResourceListAdapter.GetByMrid | ieee_2030_5/adapters/__init__.py:263-268 | a miss is None, an AttributeError escapes |
| ListAdapter.ResourceListAdapter.GetResourceList | ieee_2030_5/adapters/__init__.py:279-332 | KeyError without a class; else a page of the list: an arrangement of all its items, by `timePeriod.start` with the latest first and equal starts in stored order if that is asked for and all have one, and as stored otherwise; of it the items from start + after on, as many as the limit, or all when none of the three is given; `all` is the size of the list |
| ListAdapter.ResourceListAdapter.Get | ieee_2030_5/adapters/__init__.py:369-378 | what the dict holds under the key; NotFoundError if it holds nothing, KeyError if there is no list |
| ListAdapter.ResourceListAdapter.Set | ieee_2030_5/adapters/__init__.py:380-389 | afterwards the key, and no other, holds the value; KeyError without a list and AlreadyExists for a known key that may not be overwritten change nothing |
| ListAdapter.ResourceListAdapter.Remove | ieee_2030_5/adapters/__init__.py:402-404 | the entry of the key goes, the entries of other keys and other lists stay; KeyError exactly when the key is not there |
| ListPages.AnsweredPage | ieee_2030_5/adapters/__init__.py:286-327 | that page, for every store and all arguments: sorted items by non-increasing start with ties in stored order, the slice, the counts, and KeyError exactly without a class |
| MeteringHrefs.ParserReadsBuilder | ieee_2030_5/hrefs.py:575-722 | for every place and all indices, each accessor of the parser reads from the built href exactly the index or the class it was built with, and the others answer None or False |
| MeteringHrefs.LastListEncloses | ieee_2030_5/hrefs.py:568-573 | `last_list` of a built item href is the list that holds it, and of a list href the list itself |
| MeteringHrefs.HrefInjective | ieee_2030_5/hrefs.py:683-722 | builders of different kind, root or index never give the same string |
| MeteringHrefs.SplitHref | ieee_2030_5/hrefs.py:683-722 | the parts of every built href: indices and tags, in order |
| MeteringHrefs.LastListIs | ieee_2030_5/hrefs.py:568-573 | of any path, `last_list` is what stands before a last part of digits, and the path itself otherwise |
| Metering.CreateOrUpdateReading | ieee_2030_5/adapters/adapters.py:36-58 | store and answer of the reading upsert, with every exception |
| Metering.CreateOrUpdateReadingSet | ieee_2030_5/adapters/adapters.py:61-88 | store and answer of the reading-set upsert, with every exception |
| Metering.PostReadingSet | ieee_2030_5/adapters/adapters.py:262-270 | one turn of the loop over posted sets: the set, its link, and the loop over its readings |
| Metering.PostReadings | ieee_2030_5/adapters/adapters.py:269-270 | the inner loop over the readings of a set, ended by the first that raises |
| Metering.PostSets | ieee_2030_5/adapters/adapters.py:262-270 | the loop over the posted sets, ended by the first that raises |
| Metering.ReflectMeterReading | ieee_2030_5/adapters/adapters.py:109-135 | the replica of a mirror meter reading, and when the index assertion fails; what is stored is stated by MeteringEntries.PostedEntries |
| Metering.StoreDetails | ieee_2030_5/adapters/adapters.py:247-270 | type, reading and sets are stored in this order, each with its link |
| Metering.CreateOrUpdateMeterReading | ieee_2030_5/adapters/adapters.py:201-274 | store and answer of a whole post of a meter reading, with what each failure leaves behind; what an answered one stores is stated entry by entry by MeteringEntries.PostedEntries |
| Metering.CreateMirrorUsagePoint | ieee_2030_5/adapters/adapters.py:430-513 | store and answer of a post of a mirror usage point, new or known, as stated by MeteringNewPoints.NewPointStored and KnownPointStored |
| Metering.AddMeterReadings | ieee_2030_5/adapters/adapters.py:476-499 | the loop over the meter readings of a new point, ended by one without a type after the earlier ones were stored; the entries it leaves are those of MeteringNewPoints.LoopAdds |
| Metering.GetUsagePoint | ieee_2030_5/server/meteringfs.py:34-92 | which list and key, or which page, a path under `/upt` is answered from |
| Metering.Post | ieee_2030_5/server/meteringfs.py:124-156 | status 204 for an update and 201 for anything new, and the Location |
| MeteringUris.MirrorOfRoute | ieee_2030_5/adapters/adapters.py:227-228 | for every path of the route, the replica list is the path with every "mup" replaced, below `/upt`, and holds meter readings |
| MeteringUris.OnlyPointReachesItsReplica | ieee_2030_5/adapters/adapters.py:227-228 | of all routed paths, only the href of point i reaches the lists that were set up for point i |
| MeteringUris.SeparatedWithPoints | ieee_2030_5/adapters/adapters.py:227-228 | adding the hrefs of all points to a separated set of paths leaves it separated |
| MeteringUris.PlainPathsSeparated | ieee_2030_5/adapters/adapters.py:227-228 | paths in which "mup" does not come back after the root are separated |
| MeteringInvariant.PostedSetHrefNeverUpdates | ieee_2030_5/adapters/adapters.py:67-86 | a posted reading set is appended as new, or raises AttributeError or ValueError and leaves the store as it was; it never updates |
| MeteringInvariant.ReadingSetPairInv | ieee_2030_5/adapters/adapters.py:70-77 | creating a mirror reading set and its replica keeps the whole-store invariant |
| MeteringSteps.PostReadingSetInv | ieee_2030_5/adapters/adapters.py:262-270 | whatever its readings do, a posted set keeps the invariant, appends exactly one linked set when answered, and leaves the lists of points and meter readings untouched |
| MeteringSaves.SaveBothAny | ieee_2030_5/adapters/adapters.py:225-245 | on any routed path, in any well-formed store: both entries are saved, and the index assertion fails if and only if the searches for the mRID in the list of mirrors and in the replica list end at different slots |
| MeteringSaves.SaveBothInv | ieee_2030_5/adapters/adapters.py:225-245 | under the invariant, on separated paths, the two slots are one and the invariant is kept |
| MeteringSaves.PostMeterReadingInv | ieee_2030_5/adapters/adapters.py:201-274 | any post of a meter reading on separated paths, answered or not, keeps the invariant and does not fail the index assertion; the answer names the stored replica, and it is an update exactly when its slot was taken before |
| MeteringSaves.PostMeterReadingAny | ieee_2030_5/adapters/adapters.py:201-274 | so does a post on any routed path for the invariant over the hrefs of points, the index assertion failing exactly when the two slots differ, and never on the href of a point |
| MeteringPoints.CreateMirrorUsagePointInv | ieee_2030_5/adapters/adapters.py:430-513 | a post of a point keeps the invariant, adds one to the roots if and only if the mRID is new, and raises if and only if it is new and a meter reading lacks a type |
| MeteringServer.HandleInv | ieee_2030_5/server/meteringfs.py:34-156 | with meter readings posted to separated paths, any routed request keeps the invariant, and no assertion of the posting code fails in it |
| MeteringServer.RunInv | ieee_2030_5/server/meteringfs.py:34-156 | over separated paths, the invariant holds after every run of requests, failing ones included |
| MeteringServer.HandleKeeps | ieee_2030_5/server/meteringfs.py:34-156 | any routed request, one that fails the index assertion included, keeps the invariant over the hrefs of points |
| MeteringServer.RunKeeps | ieee_2030_5/server/meteringfs.py:34-156 | that invariant holds after every run of routed requests |
| MeteringTheorems.CollisionFails | ieee_2030_5/adapters/adapters.py:133-228 | for any two different routed paths that end in an integer and share a replica list there is a run in which the index assertion fails |
| MeteringTheorems.AssertionSafeIff | ieee_2030_5/adapters/adapters.py:109-135 | for any set of routed paths: no run that posts meter readings within it fails the index assertion, if and only if no two of its paths that address a point share a replica list |
| MeteringTheorems.EveryPointHasACollision | ieee_2030_5/server/server_endpoints.py:107-109 | for every point i the route accepts two such paths, `/mup_mup_i` and `/mup_upt_i` |
| MeteringLocations.TreesAgree | ieee_2030_5/adapters/adapters.py:61-499 | in every state that any run of routed requests reaches, failed assertions included, the roots agree in length and mRIDs, the mRIDs of mirrors are distinct, and at every index the lists of meter readings agree in length and mRIDs and those of reading sets in length, description, time period and version |
| MeteringLocations.DispatchReads | ieee_2030_5/server/meteringfs.py:34-73 | which list and key every href of the tree is dispatched to, lists of readings and sets sorted |
| MeteringLocations.UsagePointNotServed | ieee_2030_5/server/meteringfs.py:60-73 | in every reachable state a GET of a usage point's own href raises KeyError |
| MeteringPages.PlacePage | ieee_2030_5/server/meteringfs.py:45-73 | in every reachable state, a GET of any list below a usage point answers the page of what is stored: lists of readings and reading sets latest first, of meter readings as stored; one that holds anything is always answered |
| MeteringPages.UsageRootPage | ieee_2030_5/server/meteringfs.py:60-73 | a GET of `/upt` answers the page of the points in the order they were posted |
| MeteringPages.MirrorRootPage | ieee_2030_5/server/meteringfs.py:108-114 | a GET of `/mup` answers all mirror usage points in that order, also when there is none |
| MeteringPages.PointRead | ieee_2030_5/server/meteringfs.py:118-120 | any longer path below `/mup` reads the point numbered by its second part, with ValueError, NotFoundError and KeyError each in exactly one case |
| MeteringPages.UsageRead | ieee_2030_5/server/meteringfs.py:41-73 | of any path: the part that is taken for a number, ValueError exactly when it is there and is none, and the entry under it otherwise |
| MeteringLocations.StoredIsServed | ieee_2030_5/server/meteringfs.py:50-59 | in every reachable state each stored meter reading and reading set carries its own place as href, and a GET of it answers that object |
| MeteringLocations.PointLocation | ieee_2030_5/server/meteringfs.py:100-156 | the Location of a posted point, new or known, reads back the stored object with the posted mRID and attributes |
| MeteringRoutes.MeterLocationIff | ieee_2030_5/server/meteringfs.py:144-154 | for any routed path that ends in an integer: the Location of every answered post of a meter reading, after every run of routed requests, reads back the stored object, if and only if the path has two parts |
| MeteringLocations.MeterLocation | ieee_2030_5/server/meteringfs.py:144-154 | in particular from the href of a point, with the posted mRID |
| MeteringLocations.ReadingLocation | ieee_2030_5/adapters/adapters.py:48-58 | the href given to a new reading, of a meter reading or of a set, reads back that reading |
| MeteringLocations.ReadingUpdateLocationIff | ieee_2030_5/adapters/adapters.py:50-58 | the location answered to an update reads back the reading just posted, whatever it is, if and only if the href of the one it replaces is read from the very list and key that the update writes, or ends in no integer, so that nothing is answered |
| MeteringLocations.ReadingUpdateLocation | ieee_2030_5/adapters/adapters.py:50-58 | in particular while the replaced reading has the href of a place in the list |
| MeteringContents.SetPostsContents | ieee_2030_5/adapters/adapters.py:262-270 | answered, a post of several sets appends one linked set for each, in order, each with its own readings upserted (whenever these come back, as UpsertReadings has it), and whether or not it is answered no other set and no other reading list changes |
| MeteringContents.SetPostsAnswered | ieee_2030_5/adapters/adapters.py:262-270 | a post of several sets is answered if and only if each, in turn, names no list that has its mRID or holds readings, and has its readings taken |
| MeteringContents.PlainSetsAccepted | ieee_2030_5/adapters/adapters.py:262-270 | sets without hrefs are accepted if and only if no localID comes a third time within one of them |
| MeteringDetails.DetailsContents | ieee_2030_5/adapters/adapters.py:247-270 | the links of the stored meter reading are those of what was posted now or before, the type is under its link, the reading is inserted or replaces the one of its localID, the sets are appended |
| MeteringDetails.AnsweredPostIsStored | ieee_2030_5/adapters/adapters.py:201-274 | after any run of routed requests, an answered post of a meter reading on any routed path is stored in the first entry of its mRID, or a new one, with all its parts, seen from the state before the post |
| MeteringDetails.PostAnsweredIff | ieee_2030_5/adapters/adapters.py:201-274 | after any run of routed requests, a post of a meter reading on any routed path is answered if and only if its point exists, both searches for its mRID end at one slot, its own reading's localID is new or its stored entry still has an href ending in a number, and each of its sets is accepted in turn; on the href of a point the slots never differ |
| MeteringDetails.PlainPostAnsweredIff | ieee_2030_5/adapters/adapters.py:201-274 | when the sets come without hrefs, the last condition is that no localID comes a third time within one set |
| MeteringEntries.PostedEntries | ieee_2030_5/adapters/adapters.py:109-135 | in every state that runs of routed requests reach, an answered post on any routed path leaves, at one slot of both lists, the first with the mRID or the next: a mirror with what was posted, added only if the mRID is new there; and the replica with that href, the posted mRID, the description of the mirror, the links of what was posted and otherwise the links it had; no other entry of points and meter readings changes |
| MeteringEntries.RefusedReadingLeaves | ieee_2030_5/adapters/adapters.py:225-254 | a post whose own reading is refused raises with both entries saved, the type stored and linked and the list of readings linked, but no reading and no set stored, and no other list changed |
| MeteringRuns.MirrorsOnlyGrow | ieee_2030_5/adapters/adapters.py:230-241 | a stored mirror meter reading never changes again, whatever requests follow |
| MeteringRuns.FirstDescriptionStays | ieee_2030_5/adapters/adapters.py:130-131 | so after any requests, an answered post gives the replica the description that was first posted with its mRID |
| MeteringNewPoints.LoopAdds | ieee_2030_5/adapters/adapters.py:476-499 | the loop appends one mirror and one replica for each meter reading, in order, with its mRID, its description, its own href and the type link under which its type is stored and registered, up to the first without a type, which raises; nothing else changes |
| MeteringNewPoints.NewPointStored | ieee_2030_5/adapters/adapters.py:444-513 | in every reachable state, a post of a point with a new mRID becomes the next point n: `/mup` and `/upt` grow by it with all that was posted, `/mup_n_mr` and `/upt_n_mr` hold exactly its meter readings in order, entry k under the posted mRID and description with type link `/upt_n_rt_k`; it raises TypeError exactly when one has no type, with those before it stored; no other list changes |
| MeteringNewPoints.KnownPointStored | ieee_2030_5/adapters/adapters.py:501-513 | a post with a known mRID replaces the attributes of the first such point, which keeps its href and its post rate; nothing else changes, its replica included |
| MeteringRuns.PointStatus | ieee_2030_5/server/meteringfs.py:146-154 | a post of a point is answered 201 when the roots have grown by its object and 204 when its mRID was known, with the point's href as Location |
| MeteringRuns.MeterStatus | ieee_2030_5/server/meteringfs.py:146-154 | a post of a meter reading is answered 201 when the list of replicas has grown by its object and 204 when its mRID was known, with the replica's href as Location |
| MeteringRuns.SetPostRaises | ieee_2030_5/server/meteringfs.py:144-154 | a posted reading set is never answered and stores nothing; NameError exactly when the point exists |
| MeteringRuns.BadRequestIff | ieee_2030_5/server/meteringfs.py:131-135 | posts of meter readings and sets are bad requests exactly on paths of one part |
| MeteringRuns.NoSuchPoint | ieee_2030_5/adapters/adapters.py:209-213 | a post to a point that does not exist stores nothing and raises KeyError, ValueError or NotFoundError, each in exactly one case |
| MeteringReadings.RunUpsertIff | ieee_2030_5/adapters/adapters.py:252-255 | over any run of routed requests, the reading list of a meter reading holds each localID once, with what was posted last, after every request, each reading for it being accepted, if and only if each reading posted to it from the third of its localID on follows one whose own href ends in the slot of its entry |
| MeteringReadings.ReadingListsAreMeterLists | ieee_2030_5/adapters/adapters.py:253-253 | the lists at `/upt_i_mr_j_r` are among those RunUpsertIff is about |
| MeteringTypes.ReadingTypesNotServed | ieee_2030_5/server/meteringfs.py:55-73 | in every reachable state the link a type gets at `adapters.py:495` answers KeyError and the one it gets at `adapters.py:248` answers nothing |
| Readings.UpsertReadings | ieee_2030_5/adapters/adapters.py:36-58 | for any readings posted to an empty list, with or without hrefs: every prefix is answered and leaves each localID once with its last reading, if and only if each post from the third of its localID on follows one whose own href ends in the slot of the entry |
| Readings.UpsertPlainReadings | ieee_2030_5/adapters/adapters.py:36-58 | posts of readings without hrefs are all answered if and only if no localID comes more than twice |
| Readings.PostedHrefDuplicates | ieee_2030_5/adapters/adapters.py:50-53 | an update that carries an href of its own makes the next one duplicate the localID, under a key the client chose |
| ProgramHrefs.ProgramHrefRoundTrip | ieee_2030_5/hrefs.py:340-397 | the parser returns what the builder was given if and only if the fields are filled from the left and the link is none, active, default or control list |
| ProgramHrefs.ProgramHrefParts | ieee_2030_5/hrefs.py:363-397 | the parts of the href printed for each link, and which links have none |
| ProgramHrefs.ProgramPathRead | ieee_2030_5/hrefs.py:341-356 | what the parser reads of any text, and exactly when it raises ValueError or KeyError |
| ProgramHrefs.EventParserReads | ieee_2030_5/hrefs.py:99-111 | from any event href the parser recovers the program, the event's number and the list |
| ProgramHrefs.EventHrefInjective | ieee_2030_5/server/admin_endpoints.py:566-567 | no two events of any programs share an href |
| EdevHrefs.Str | ieee_2030_5/hrefs.py:473-487 | the printed text is the join of the fields that are set |
| EdevHrefs.EdevRoundTrip | ieee_2030_5/hrefs.py:466-511 | parsing what was printed returns the same fields if and only if no field is set after an unset one |
| EdevHrefs.EdevPrintParsed | ieee_2030_5/hrefs.py:473-511 | printing what was parsed returns the same path if and only if it starts with "/edev" and its integers are canonical and not -1 |
| EdevHrefs.EdevPathsRead | tests/test_href.py:5-21 | for every device, DER and text: a path is read as a sub-resource if and only if the text is its name |
| EdevHrefs.EdevPathsRefused | tests/test_href.py:23-25 | a path with another first part, or a text that names nothing, raises ValueError; the slash may be missing |
| DerServer.EventServer.PostControl | ieee_2030_5/server/admin_endpoints.py:556-579 | state and answer of a posted control: new unless the last control with its mRID stands past position 0, then without effect; DerPosts.PostedReply states both from the states alone |
| DerServer.EventServer.ShareStatus | ieee_2030_5/server/server_constructs.py:101-108 | both handlers point the first control with the event's mRID at the event's status object |
| DerServer.EventServer.Started | ieee_2030_5/server/server_constructs.py:90-123 | the event is in the active list of its program afterwards, added only if its mRID was not, or the thread dies |
| DerServer.EventServer.Ended | ieee_2030_5/server/server_constructs.py:126-160 | the mRID of the event is taken out of the active list of its program, or the thread dies |
| DerServer.RemoveAll | ieee_2030_5/server/server_constructs.py:151-158 | popping the collected positions, last first, leaves exactly the items of other mRIDs, in order |
| DerServer.EventServer.ClockTick | ieee_2030_5/adapters/adapters.py:582-607 | one round over all events in insertion order, left at the first exception |
| DerInvariant.NextHrefIsNew | ieee_2030_5/adapters/adapters.py:572-580 | whenever each event is where its href says, the href a new control is given is not in the event table yet, so the event is never ignored |
| DerPosts.PostedReply | ieee_2030_5/server/admin_endpoints.py:556-579 | in every state of a run: the reply is created if and only if an event was added; it is then the href of that event, not known before, which stands last in its program's control list with the posted mRID, start, duration and status, and nothing else has changed; unchanged answers the href of the last control of that mRID, which stands past position 0, and changes nothing; it fails, with nothing changed, exactly when there is no such program |
| DerPosts.LinksAreParts | ieee_2030_5/hrefs.py:363-394 | the active list and the control list of program p are `/derp_p_derca` and `/derp_p_derc`, and are parsed as such |
| DerPosts.ActiveEntriesLeadBack | ieee_2030_5/server/server_constructs.py:101-123 | in every run, whatever is posted, each entry of an active list has href and mRID of an event that stands in the control list of that program where the href says |
| DerInvariant.StepPlaced | ieee_2030_5/server/server_constructs.py:101-107 | every post and tick, of whatever content, keeps each event in the control list and at the position its href names |
| DerPosts.TurnInNumbers | ieee_2030_5/adapters/adapters.py:588-605 | one turn leaves its event with status 0 before the start if it had none, 1 inside the window, 5 past it if it was 1, with the time of the change, and else as it was |
| DerPosts.HandlersShare | ieee_2030_5/server/server_constructs.py:101-108 | whether or not an exception follows, the first control of the event's mRID has the event's status object afterwards, and no other event has changed |
| DerClock.TickEventGood | ieee_2030_5/adapters/adapters.py:589-605 | one turn of the loop keeps every event in its place and every active list in agreement with the statuses, whatever was posted, and ends the thread exactly when an event of a program without an indexed list has the time in its window |
| DerTheorems.ThreadSurvivesIff | ieee_2030_5/server/server_constructs.py:116-123 | the clock thread survives a tick if and only if each event whose window holds the time belongs to a program with an indexed list |
| DerTheorems.RunSurvivesIff | ieee_2030_5/server/server_constructs.py:116-123 | it survives a run without posts of status 1 if and only if no tick of the run falls in the window of an event then in the table whose program has no indexed list |
| DerTheorems.PostGood | ieee_2030_5/server/admin_endpoints.py:553-577 | a post of any control whose status is not 1, a repost included, keeps the invariant, all events, statuses, active lists and signals |
| DerTheorems.PostAgreesIff | ieee_2030_5/server/admin_endpoints.py:553-577 | a new control keeps the active list of its program in agreement if and only if its status is not 1, or its mRID is in the list already |
| DerTheorems.ActiveListsAgree | ieee_2030_5/server/server_constructs.py:90-160 | in every state that posts of any status but 1 and ticks in any order and at any times reach, reposts included and whether or not the clock thread is still running, the active list of each indexed program holds, once each, exactly the mRIDs of its events with status 1 |
| DerTheorems.IndexedRunSurvives | ieee_2030_5/server/server_constructs.py:300-300 | no run that posts only to programs with an indexed list, and nothing of status 1, ends the clock thread |
| DerLifecycle.TickLawful | ieee_2030_5/adapters/adapters.py:588-605 | after a tick of a clock that does not go back, inside its window an event is active, an active event is in its window or at its end, one that the clock has completed is past it; and no status moves down, unless it was posted as one that the clock does not set before a start; also in the tick that ends the thread |
| DerLifecycle.EventSafety | ieee_2030_5/models/sep.py:470-517 | over whole runs, whether or not the thread is still running, each event is signalled scheduled, started and ended at most once each and in this order, never ended without a start; its status is the one that the last signal set and its dateTime the time of that signal; before the first signal an event posted without a status has none |
| DerMissed.NoMissIff | ieee_2030_5/adapters/adapters.py:582-608 | on a new server whose clock readings differ by at most g, every control of a given duration that the ticks cover goes through to complete if and only if the duration is more than g |
| DerMissed.LongEventsComplete | ieee_2030_5/adapters/adapters.py:582-608 | in any orderly run that the thread survives, whatever else is posted, an event longer than the pace that the ticks cover is signalled started and ended and is complete |
| DerReposts.RepostSafeIff | ieee_2030_5/server/admin_endpoints.py:560-577 | in every state of an orderly run: all orderly continuations after a post keep every history legal, if and only if it does not repeat the mRID of its program's first control with a window in which the clock can still reach it |
| DerReposts.RepostSafeInNumbers | ieee_2030_5/server/admin_endpoints.py:560-577 | where all programs have indexed lists, that window is one of at least two seconds that is not over |
| DerStatuses.PostedStatusIff | ieee_2030_5/adapters/adapters.py:588-605 | whatever status a new control is posted with, the signals of all events stay in order in every orderly continuation if and only if it is not 1 |
| DerRepost.RepostStartsTwice | ieee_2030_5/server/admin_endpoints.py:560-568 | one way in which it fails: with overlapping windows of which the second ends later, the second event is started twice |
| Initialise.LinkOne | ieee_2030_5/server/server_constructs.py:423-454 | linking one more program and running the two loops over the assignments: KeyError without an assignment, TypeError without a primacy, AttributeError with a second assignment, and otherwise the program of the first DER |
| Initialise.AddDersSound | ieee_2030_5/server/server_constructs.py:392-454 | for any number of DERs of a new device: the loops come through if and only if there are none, or a default program with a primacy, a default control and exactly one assignment; all DERs are then linked to the program made for the first |
| Initialise.InitialisationSound | ieee_2030_5/server/server_constructs.py:237-469 | for every configuration: it is got through if and only if each new device has that, or no DERs of its own, and otherwise raises what its first failing device raises; every entry of `/derp` is the program its own href names, despite the double append; the DERs are `/der_0` to `/der_N-1`, all different, from the global counter, which ends at N; all DERs of a device are linked to the program made for its first, and one made because of the default to program 0 |
| Initialise.Initialiser.FindCurrent | ieee_2030_5/server/server_constructs.py:441-452 | the nested loops over the programs of the assignments find the first program, or raise |
| Initialise.Initialiser.CreateDerProgram | ieee_2030_5/server/server_constructs.py:166-193 | one new program object stands in two consecutive entries, with the hrefs of the first |
| Initialise.Initialiser.Initialize | ieee_2030_5/server/server_constructs.py:237-469 | the loops compute the setup that InitialisationSound is about, with the exception that ends them, and every entry of `/derp` is the object its href names |
| ServerRuns.IndexedAreConfigured | ieee_2030_5/server/server_constructs.py:268-300 | the programs with an indexed active list are exactly those the configuration lists |
| ServerRuns.ConfiguredProgramsAgree | ieee_2030_5/server/server_constructs.py:90-305 | on a server set up from any configuration, posts of any status but 1 to the configured programs never end the clock thread, and their active lists always hold exactly their events with status 1 |
| ServerRuns.ConfiguredRepostIff | ieee_2030_5/server/admin_endpoints.py:553-577 | on a server set up from any configuration, after any orderly run, a post keeps events safe if and only if it does not repeat the first mRID of its program, or its window is shorter than two seconds, or over |
| Paging.PagesTile | ieee_2030_5/adapters/__init__.py:320-327 | reading page after page of any limit gives every item once and in order, `results` sums to what is left and `all` is the length of the list |
| Paging.PagersAgree | ieee_2030_5/adapters/__init__.py:598-631 | the two pagers agree if and only if a limit is given, or the start is 0, or nothing is left |
| Paging.OffsetsAdd | ieee_2030_5/adapters/__init__.py:325-326 | with a limit, a page depends on the sum of its two offsets only |
| Paging.SortedOrdered | ieee_2030_5/adapters/__init__.py:300-314 | the sort orders the items, either way, and loses none |
| Paging.SortedStable | ieee_2030_5/adapters/__init__.py:300-314 | items of equal keys keep their order, either way |
| Paging.StableOrderUnique | ieee_2030_5/adapters/__init__.py:300-314 | there is only one ordered and stable arrangement, so the sort modelled is the one Python computes |
| Paging.SortedArranges | ieee_2030_5/adapters/__init__.py:300-314 | item by item: the sort is a rearrangement in which of any two items the first has the key that goes first, or an equal one and stood first |
| Paging.ResourcePageIs | ieee_2030_5/adapters/__init__.py:321-327 | the page holds exactly the items at the positions from start + after to that plus the limit, negative bounds counted from the end, or all items when none of the three is given |
| Sfdi.LfdiIgnoresColons | ieee_2030_5/certs.py:30-32 | fingerprints that differ only in colons have one LFDI |
| Sfdi.LfdiIsPrefix | ieee_2030_5/certs.py:30-32 | the LFDI is the first 40 characters of the fingerprint without its colons, or all of them |
| Sfdi.HexReadsPrinted | ieee_2030_5/certs.py:37-37 | the conversion from hexadecimal reads back every number as the hexadecimal printer writes it, at any width |
| Sfdi.PrintsHexRead | ieee_2030_5/certs.py:37-37 | it accepts exactly the texts of hexadecimal digits, of either case, and the printer then gives back the text but for the case |
| Sfdi.SfdiFromLfdi | ieee_2030_5/certs.py:35-42 | the check-digit loop ends with the one digit that makes the digit sum a multiple of ten; the result div 10 is the 36-bit prefix and stays within the schema's limit |
| Sfdi.ChecksIffSfdi | ieee_2030_5/certs.py:37-42 | a number passes the check if and only if it is the SFDI made from all its digits but the last |
| Sfdi.SfdiOfPrefixProperties | ieee_2030_5/models/sep.py:5449-5454 | every SFDI passes the check and gives its prefix back, so no two prefixes share one |
| Sfdi.OneDigitChanged | ieee_2030_5/certs.py:39-41 | changing any one digit breaks the check |
| Sfdi.ExchangeUnnoticed | ieee_2030_5/certs.py:39-41 | exchanging any two digits does not |
| Sfdi.FindDevice | ieee_2030_5/certs.py:282-300 | the search answers the first device with the SFDI, none if and only if every certificate is read and none has it, and raises only at an unreadable one reached before a match |
| Timer.TimerSpec.Trigger | ieee_2030_5/adapters/adapters.py:541-550 | the count goes up by one, and the time becomes the trigger time, exactly when the interval has passed and the timer's function does not raise |
| Timer.RateBound | ieee_2030_5/adapters/adapters.py:541-550 | after any calls, raising or not, firings times (interval + 1) is at most the time from the initial to the last trigger time |
| Timer.RateBoundReached | ieee_2030_5/adapters/adapters.py:541-550 | the bound is reached, for every interval and number of firings |

## Left out

- Flask routing other than the `/mup` route's pattern, WSGI, TLS, the proxy, clients, STOMP, XML and the GUI: input and output around the core.
- The file store, pickling and the `store_event` signal: the href cache of `data/indexer.py` is a map of values, and nothing is read back from disk.
- `GlobalmRIDs` and `new_mrid`: the registry is only written by the modelled code; mRIDs that initialisation generates do not appear in the setup.
- `int()` forms with white space, underscores, non-ASCII digits or a base prefix: integers are an optional sign and ASCII digits, and `isnumeric` is ASCII too.
- Posts of a MirrorMeterReadingList: the handler refuses them before the posting code is reached.
- The meter readings, readings and sets that stay nested inside stored mirror objects, and a reading that one post names twice as one object: stored entries are values, and references to them are positions in the list.
- A `timePeriod` without a start, which would raise TypeError while sorting: a time period has a start.
- `postRate`: the configured default for a post without one (`meteringfs.py:139-140`) is the caller's, and so is the `pollRate` of a list of mirrors.
- The `ListAdapter` copies of active lists (`server_constructs.py:110`) and the other `add_href` calls of the handlers: only the indexed active lists are modelled; the ended handler never shrinks the copies.
- The `looping` flag: posts and ticks are atomic steps, since the flag is checked and set without a lock. After an exception has ended the clock thread a post still appends its control, but is never answered, because the flag stays up; that its answer is missing is not modelled.
- DerLifecycle.EventSafety: runs in which a control is posted as active, or an unsafe repost is made, are excluded, as PostedStatusIff and RepostSafeIff say they must be.
- MeteringServer.HandleInv: that no assertion fails is stated for separated paths, as AssertionSafeIff says it must be.
- DerEvents.PostControl: does not model a posted control that has no interval, nor the other resources `_admin_derp_derc` accepts.
- ListAdapter.ResourceListAdapter.GetResourceList: of the sort orders, only that by `timePeriod.start`, which the metering handlers use.
- Randomisation, cancellation and supersession of events, and the choice of a program by primacy, which the code only sketches.
- Initialise.Initialiser.Initialize: does not model the identifiers that are refreshed on devices that exist already, curves, descriptions, the end-device resources, or the lists of DERs of each device; the loops are modelled from an empty store.
- `Adapter` other than its paging, `Indexer` snapshots and `TimerSpec.enabled` (no code reads it).
- `server/usage_pointfs.py`: wired to no route.
