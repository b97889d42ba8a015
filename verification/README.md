# taypeer: replicated entries, group tree, sibling order, authority watcher

A Dafny model of the parts of taypeer where a mistake would lose or leak a user's data, with proofs
of what they promise. `dafny verify dfyconfig.toml` checks everything.

**The replicated document.** A document is a dependency-closed set of changes (`Causal.dfy`). A change
stands on the closed set below its base, writes registers, and each of its puts overwrites exactly what
was visible there. Every write runs under a fresh actor, so the actor names the change and, with a
counter, the operation. Delivery and merging are unions; reading at a base is the restriction to what
lies below it. `Soundness.dfy` states what every change satisfies in its own view; the statement never
mentions the rest of the document, so it survives delivery, merging and reading at an old base.
`Structure.dfy` states what validation demands of the whole (each row and each object once, no identity
under two entries); local operations keep it, and a merge or delivery that would break it is refused
(`Validating.dfy`).

On top of that stand field states and selection (`Selection.dfy`, `Projection.dfy`, `Reading.dfy`),
drafts and saving (`Drafts.dfy`, `Transactions.dfy`, `Committing.dfy`, `Saving.dfy`, `SavingLaws.dfy`), scalar
edits, resolutions and restorations (`Confirmations.dfy`, `Resolving.dfy`, `ConfirmationLaws.dfy`), patches of group and database
details (`Metadata.dfy`), modification times (`Times.dfy`), blob references (`Blobs.dfy`), the document
object (`Document.dfy`) and retry receipts (`Receipts.dfy`). `Witnesses.dfy` runs the document's own
operations into the cases that break a promise. Where the program loops and updates state,
the model has methods and classes, proved against functions; the laws are proved about those functions.
`Laws.dfy` holds the laws of any sound document, `Runs.dfy` the transition system in which any number
of replicas and drafts move, and the proof that every reachable document is sound.

**The group tree** (`Groups.dfy`) lifts one edge of each cycle and spreads statuses to a fixpoint.
**The sibling order** (`Order.dfy`) inserts between any two siblings without rewriting keys. **The
authority watcher** (`Watcher.dfy`) is a machine of interleaved steps with lossy events, a one-slot
wakeup queue and a credential handshake. **The class identity** of the coverage tool (`Checksum.dfy`)
is a reflected cyclic redundancy check.

## How the pieces meet

- The methods of `EntryDocument.Document` produce exactly the steps `Saved`, `Confirmed`, `Purges`,
  `Delivers` and the structured unions that `Runs.Step` is made of, `Metadata.ConfirmGroup` produces
  `Patches`, and all keep the invariant that `Runs.ReachableIsSound` gives to every reachable state. So
  each law of `Laws.dfy` holds after any run of them.
- `Reading.ReadEntry` computes `Projection.Project` with the loops of the source; `Project` itself is
  defined by a plain argmax over visible operations, so selection is a refinement proof.
- `Transactions.ApplyForm` computes the difference of a form with the loops of the source; `DraftWrite`
  says register by register what that difference is, and `Drafts.FormRoundTrip` what it means.

- What each operation means to its caller is stated without the functions it is computed with: who wins by
  numbers and characters (`Laws.GreatestIsChosen`), what a form shows (`Laws.ProjectionMeans`), which save is
  answered how (`SavingLaws`), what an edit, resolution or move leaves alone (`ConfirmationLaws`), which groups
  are listed (`Groups.Projects`), what a command commits (`Receipts.ServeMeans`) and what one turn of the watch
  loop does (`Watcher.Turned`).

## False as first stated

- *No rotation locks out its own session*: true when each rotation starts after the watcher has
  accepted the epoch before (`Watcher.RotationKeepsSession`). `Watcher.SecondRotationCanLockOut` is a run
  where a second rotation is prepared before the first is noticed and the watcher revokes;
  `Watcher.RevocationIsOvertaking` says which record values make a poll revoke, both ways.
- *Every visible attachment alternative is retained*: true of what drafts, edits and restorations write.
  A resolution may write the blob of an attachment that is not present. `Blobs.AlternativeIsRetained`
  gives the exact condition for any sound document: an alternative that nothing else holds is retained
  exactly when its attachment was present in the transaction that wrote it. `Witnesses.StrandedBlob` is a
  run of the operations that ends with a selected blob that is not retained.
- *An operation identity never occupies both receipt maps*: true of one replica that only serves its own
  requests. `Receipts.MergeCollides` says when a join puts it into both, `Receipts.CollidingRun` is the run
  that does, and `Receipts.CollidedRefuses` shows that every use of the identity is refused from then on.
- *Replicas of one database can always be merged*: they can exactly when nothing one side brings collides
  with what the other brings (`Structure.UnionIsStructured`). `Witnesses.CollidingReplicas` is a run in
  which two forks create entries with one attribute identity, as crates/taypeer-document/src/tests.rs:837
  does, and the merge refuses.

## Model

| member | source | states |
|---|---|---|
| `Selection.ReadField` | crates/taypeer-document/src/fields.rs:302-328 | the grouping loop yields each distinct visible value once, with exactly its operations as origins; origins are in the order of their characters and variants in the order of their first origins; it fails only when nothing is visible |
| `Selection.SelectedVariant` | crates/taypeer-document/src/fields.rs:331-360 | the selected value is the one whose operation beats every other: first protection or deletion, then the greater counter as a number, then the actor with the greater first different character |
| `Selection.OutrankedMeans` | crates/taypeer-document/src/fields.rs:331-360 | one operation loses to another exactly when only the other is favoured, or both or neither are and its counter is smaller, or equal with an actor that is smaller at the first difference |
| `Selection.NumericOrder` | crates/taypeer-document/src/automation_tests.rs:21-51 | of 9@ff and 10@00 the second is selected, and 10@01 beats both |
| `Selection.HighestRank` | crates/taypeer-document/src/fields.rs:334-341 | parsing the origins of a variant and taking the maximum yields the greatest operation that wrote that value |
| `Selection.StatesConverge` | crates/taypeer-document/src/fields.rs:324-328 | two replicas with the same visible operations list the same state, whatever their enumeration order |
| `Selection.ChampionUnique` | crates/taypeer-document/src/fields.rs:331-360 | the selected operation is determined by the set of visible operations |
| `Operations.RankOfRender` | crates/taypeer-document/src/fields.rs:362-369 | parsing the text of an operation gives that operation back, so origins identify operations |
| `Operations.PrecedesMeans` | crates/taypeer-document/src/fields.rs:362-369 | ranks are compared by counter as numbers and then by the first different character of the actors |
| `CausalDocument.PutEffect` | crates/taypeer-document/src/tests.rs:375-420 | a put removes from a register exactly what it overwrites and adds itself; no earlier change can cover it |
| `CausalDocument.WrittenIsVisible` | crates/taypeer-document/src/fields.rs:302-323 | a register that was ever written always has something visible: concurrent overwriting never empties it |
| `CausalDocument.HeadsSeeAll` | crates/taypeer-document/src/lib.rs:407-421 | reading at the current heads is reading the whole document |
| `CausalDocument.HeadsAreNeeded` | crates/taypeer-document/src/lib.rs:407-421 | no head can be left out: without it the view is smaller |
| `CausalDocument.UnionKeepsCausal` | crates/taypeer-document/src/lib.rs:819-836 | a merge of causally ordered documents is causally ordered |
| `Projection.SameVisibleSameChosen` | crates/taypeer-document/src/projection.rs:106-152 | a selection depends only on the visible puts of its register |
| `Reading.GetAll` | crates/taypeer-document/src/fields.rs:309-323 | enumerates every visible operation exactly once |
| `Reading.SelectFrom` | crates/taypeer-document/src/projection.rs:204-206 | selecting from a listed state gives the choice among everything visible in that field |
| `Reading.ReadValues` | crates/taypeer-document/src/projection.rs:106-152 | lists every scalar, every presence, and the parts of exactly what is present; no field twice |
| `Reading.ScanStates` | crates/taypeer-document/src/projection.rs:196-243 | on a sound document the typed scan never fails and collects exactly the selected values |
| `Reading.AssembleAttributes` | crates/taypeer-document/src/projection.rs:244-250 | builds one attribute for each present identity, and fails exactly when a part is missing |
| `Reading.AssembleAttachments` | crates/taypeer-document/src/projection.rs:251-257 | builds one attachment for each present identity, and fails exactly when a part is missing |
| `Reading.ReadEntry` | crates/taypeer-document/src/projection.rs:51-103 | reading an entry of a sound document never fails and yields the selected projection, which is a valid form |
| `Soundness.ProjectIsValidForm` | crates/taypeer-core/src/lib.rs:194-212 | concurrent writes never produce a projection that form validation rejects |
| `Soundness.CommitConsumesWhatItSaw` | crates/taypeer-document/src/lib.rs:597-665 | after a save at base B each written register shows (what was visible) minus (what was visible at B) plus the new operation; every other register is unchanged |
| `Soundness.CommitChooses` | crates/taypeer-document/src/fields.rs:136-143 | in the view of its own transaction each written register shows one value, the written one, also when the store elides the put |
| `Soundness.CommitKeepsValid` | crates/taypeer-document/src/lib.rs:597-665 | a transaction at any base with orderly writes keeps the whole document sound |
| `Soundness.UnionKeepsValid` | crates/taypeer-document/src/lib.rs:819-836 | a merge of sound documents is sound |
| `Soundness.UnionKeepsFaithful` | crates/taypeer-document/src/lib.rs:819-836 | after a merge every stored row still is the projection of its own transaction |
| `Structure.UnionIsStructured` | crates/taypeer-document/src/lifecycle/mod.rs:392-422 | the union of two structured documents is structured exactly when no change of one collides with a change of the other: same revision, same object, or one identity under two entries |
| `Structure.ExtendKeepsStructured` | crates/taypeer-document/src/lifecycle/mod.rs:392-422 | a change whose row and objects are new to the document, with identities no other entry owns, keeps the structure |
| `Validating.ValidateStructure` | crates/taypeer-document/src/lifecycle/mod.rs:392-422 | the loops accept exactly the structured documents; doubled rows are a conflict, doubled objects and shared identities a duplicate |
| `Validating.CheckObjects` | crates/taypeer-document/src/codec.rs:47-57 | reading an entry is refused exactly when one of its objects was created twice |
| `Validating.CheckRows` | crates/taypeer-document/src/lib.rs:867-880 | visiting the rows is refused exactly when two changes hold one revision |
| `Soundness.AtKeepsValid` | crates/taypeer-document/src/source.rs:135-144 | a document read at any known heads is sound |
| `Transactions.Transaction.Put` | crates/taypeer-document/src/fields.rs:136-137 | records the scalar over everything visible under a new counter, and nothing when it equals the only visible value |
| `Transactions.Transaction.PutField` | crates/taypeer-document/src/fields.rs:114-145 | accepts exactly typed values whose object exists at the base or in the transaction, with the error of each refusal |
| `Transactions.ApplyAttribute` | crates/taypeer-document/src/fields.rs:206-262 | asks for exactly the writes of one attribute's difference; refuses exactly a new identity that exists at the base |
| `Transactions.ApplyAttachment` | crates/taypeer-document/src/binary.rs:224-279 | asks for exactly the writes of one attachment's difference; refuses exactly a new identity that exists at the base |
| `Transactions.ApplyForm` | crates/taypeer-document/src/fields.rs:183-262 | the five loops ask for the form's difference register by register and nothing else; they fail exactly when some new identity is taken |
| `Drafts.PartWriteMarksPresence` | crates/taypeer-document/src/fields.rs:240-250 | every edit of an attribute or attachment part also writes its presence |
| `Drafts.PresentMeansNoDeletion` | crates/taypeer-document/src/fields.rs:342-350 | something is selected as present only when no visible operation deletes it |
| `Drafts.FormWantedOk` | crates/taypeer-document/src/fields.rs:183-262 | a draft's writes create whole objects, witness presence, and never overwrite a deletion |
| `Drafts.FormRoundTrip` | crates/taypeer-document/src/lib.rs:623-633 | projecting the save's own transaction gives exactly the submitted form, for every base and every form |
| `Drafts.SaveKeepsSound` | crates/taypeer-document/src/lib.rs:597-665 | a save at any base keeps the document sound and stores the submitted form as its snapshot |
| `Drafts.SaveKeepsStructured` | crates/taypeer-document/src/lib.rs:560-585 | a save brings no row, object or identity that the document has, so validation keeps accepting it |
| `Committing.Seal` | crates/taypeer-document/src/lib.rs:630-653 | the stored row's snapshot is the projection of the transaction that stores it, and its changed operations are that transaction's |
| `Committing.RowsDoNotProject` | crates/taypeer-document/src/projection.rs:106-152 | a projection does not depend on stored rows, so a snapshot read before its row is stored stays true |
| `Saving.WriteDraft` | crates/taypeer-document/src/lib.rs:597-665 | the transaction of a save and the reading back of its entry refuse exactly an identity that the document has, also one its base did not show, and otherwise make the save step |
| `Saving.SavedReplays` | crates/taypeer-document/src/lib.rs:523-549 | replaying a saved draft, later and after any accepted delivery, is always recognised as a replay and changes nothing |
| `SavingLaws.AdmissionMeans` | crates/taypeer-document/src/lib.rs:523-585 | what is decided before the transaction, case by case in the order of the source: wrong database, unlisted group, invalid form, unknown head, a revision already confirmed or taken, a closed lifetime, an unchanged form |
| `SavingLaws.TakenMeans` | crates/taypeer-document/src/lib.rs:560-613 | an identity is refused exactly when some change created what the draft would create, or gave an identity of its form to another entry |
| `SavingLaws.SaveMeans` | crates/taypeer-document/src/lib.rs:597-665 | a save is one change at the draft's base with one row (revision, entry, time, kind, base, the form as submitted and as snapshot); its own view chooses every part of the form; registers of parts that did not change, and of other entries, keep their visible values; history grows by that revision alone |
| `SavingLaws.SavedIsConfirmed` | crates/taypeer-document/src/lib.rs:523-549 | wherever the change of a save has arrived the draft is found confirmed |
| `EntryDocument.Document.BeginEditEntry` | crates/taypeer-document/src/lib.rs:407-421 | a draft at the current heads whose form shows what every register of the entry chooses, and whose original is that form |
| `EntryDocument.Document.BeginCreateEntry` | crates/taypeer-document/src/lib.rs:391-404 | a new draft with an empty form at the current heads without an original; refused exactly for a group that is not listed |
| `EntryDocument.Document.ContinueEntryDraft` | crates/taypeer-document/src/lib.rs:426-475 | succeeds exactly when the confirmed draft is unchanged and unstored or its very confirmation is stored; the next draft starts from the confirmed form at that confirmation's change, or at the old base if there is none, and keeps the draft invariant |
| `EntryDocument.Document.SaveEntry` | crates/taypeer-document/src/lib.rs:502-665 | each refusal as a condition on the request with its error, in order; a replay and an unchanged form answer with the entry and change nothing; every other request adds the one change that `SavingLaws.SavedForm` describes, and nothing else ever changes the document |
| `EntryDocument.Document.EditFields` | crates/taypeer-document/src/lib.rs:672-740 | afterwards every update is selected; registers whose update was already selected, and all others, keep their visible values; there is one row exactly when some update was not yet selected; refused with the error of an inactive entry, a non-scalar or a mistyped update |
| `EntryDocument.Document.ResolveFields` | crates/taypeer-document/src/operations.rs:257-388 | succeeds exactly when the context, the list and its objects are in order; then one confirmation at the reviewed heads whose own view selects every listed value, replaces what those heads showed and leaves everything else visible |
| `EntryDocument.Document.RestoreRevision` | crates/taypeer-document/src/operations.rs:216-254 | succeeds exactly for a visible confirmation whose identities no other entry owns, with the error of each refusal; the entry then projects to its snapshot in the named group, by one row of kind restore at the current heads |
| `EntryDocument.Document.PurgeHistory` | crates/taypeer-document/src/operations.rs:432-460 | hides exactly the chosen revisions, which must be a non-empty set of visible ones; rows and every visible value stay |
| `EntryDocument.Document.MoveEntry` | crates/taypeer-document/src/lifecycle/commands.rs:259-318 | a move at reviewed or current heads is one confirmation whose own view chooses the group and that touches no other register, a resolution under review; an entry that stands there already is not confirmed again |
| `ConfirmationLaws.EditMeans` | crates/taypeer-document/src/lib.rs:672-740 | an edit selects every update in the whole document, and writes only what was not selected |
| `ConfirmationLaws.ResolutionMeans` | crates/taypeer-document/src/operations.rs:291-388 | a resolution selects every listed value in its own view, touches no unlisted register, and leaves a register alone that showed only that value |
| `ConfirmationLaws.MoveMeans` | crates/taypeer-document/src/lifecycle/commands.rs:259-318 | a move chooses the group in its own view and touches no other register |
| `EntryDocument.Document.Merge` | crates/taypeer-document/src/lib.rs:819-836 | succeeds exactly for the same database and a structured union, that is when both sides are compatible; otherwise nothing changes and the error names the fault |
| `EntryDocument.Document.ApplySources` | crates/taypeer-document/src/source.rs:107-132 | applies a batch exactly when every dependency is in it or known and the result is structured, and otherwise leaves the document unchanged |
| `EntryDocument.Document.AtSource` | crates/taypeer-document/src/source.rs:135-144 | an isolated valid document of one known change and everything it had seen |
| `Soundness.DependenciesReach` | crates/taypeer-document/src/source.rs:107-115 | checking direct dependencies is enough: everything a change had seen is then at hand |
| `Soundness.BatchKeepsSound` | crates/taypeer-document/src/source.rs:107-132 | a dependency-complete batch of original changes leaves a sound document |
| `EntryDocument.ReadHistory` | crates/taypeer-document/src/lib.rs:783-802 | lists every confirmation that no purge names exactly once, by saved time and then by the characters of its identity; it fails exactly when one revision has two rows, which no structured document has |
| `Confirmations.ConfirmKeepsSound` | crates/taypeer-document/src/operations.rs:291-388 | edits, moves, resolutions and restorations keep the document sound |
| `Confirmations.ConfirmKeepsStructured` | crates/taypeer-document/src/operations.rs:390-423 | they bring no row, object or identity that the document has |
| `Confirmations.ResolutionKeepsUnseen` | crates/taypeer-document/src/operations.rs:615-672 | a resolution replaces what was visible at the reviewed heads and leaves every later or unseen variant visible |
| `Confirmations.RestorationIsConfirmable` | crates/taypeer-document/src/operations.rs:291-388 | the list of a restoration always passes the checks of its own confirmation |
| `Confirmations.RestorationIsExact` | crates/taypeer-document/src/operations.rs:216-254 | restoring a form makes the entry project to exactly that form, including what was added or removed since, in the named group, with one variant in every written field |
| `Resolving.AllResolutions` | crates/taypeer-document/src/operations.rs:463-498 | the loops build a list without repetition that names every field of the old form and the removal of everything else |
| `Resolving.AttachmentPresenceResolutions` | crates/taypeer-document/src/binary.rs:315-327 | each listed attachment presence once, set to whether the old form has it |
| `Resolving.AttachmentPartResolutions` | crates/taypeer-document/src/binary.rs:328-347 | each attachment of the old form: its presence unless listed, its name and its blob |
| `Resolving.CheckResolutions` | crates/taypeer-document/src/operations.rs:314-328 | accepts exactly lists without repetition whose values are typed; otherwise reports the first fault |
| `Resolving.RestoredAttributes` | crates/taypeer-document/src/operations.rs:390-423 | the objects to create are the attributes set present that have none; refused exactly when another entry owns one |
| `Resolving.RestoredAttachments` | crates/taypeer-document/src/binary.rs:350-378 | the objects to create are the attachments set present that have none; refused exactly when another entry owns one |
| `Resolving.WriteResolution` | crates/taypeer-document/src/operations.rs:340-387 | the transaction fails exactly when a resolved part has no object, and otherwise is the confirmation step |
| `Resolving.WriteRestoration` | crates/taypeer-document/src/operations.rs:238-251 | a restoration is refused exactly for foreign identities; its own list always goes through |
| `Laws.DeletionWins` | crates/taypeer-document/src/fields.rs:201-259 | if something deleted is present, a restoration or resolution that had seen the deletion brought it back |
| `Laws.DeletedStaysAbsent` | crates/taypeer-document/src/binary.rs:223-279 | without such a confirmation nothing deleted is in the form |
| `Laws.ProtectionHolds` | crates/taypeer-document/src/fields.rs:331-360 | if a value once protected is selected unprotected, some confirmation whose base showed it protected wrote an unprotected one, and a saved form said so |
| `Laws.HistoryMerges` | crates/taypeer-document/src/lib.rs:783-836 | visible history after a merge is all confirmations of both minus all purges of both |
| `Laws.HistoryGrows` | crates/taypeer-document/src/operations.rs:425-460 | a change adds its own row and hides exactly what it purges |
| `Laws.GreatestIsChosen` | crates/taypeer-document/src/fields.rs:331-360 | a visible put that beats every other visible put of its register, by priority, counter and actor characters, is the chosen one |
| `Laws.ChosenIsGreatest` | crates/taypeer-document/src/fields.rs:331-360 | whatever is chosen is such a put |
| `Laws.LatestCounterIsChosen` | crates/taypeer-document/src/automation_tests.rs:21-51 | when nothing visible is favoured, the put with the greatest counter is chosen |
| `Laws.NewerRanksAbove` | crates/taypeer-document/src/lib.rs:597-665 | a change that had seen another's put of a register ranks above it there |
| `Laws.ProjectionMeans` | crates/taypeer-document/src/projection.rs:196-257 | the projection is the one form each of whose scalars, attributes and attachments is the value chosen for it, with exactly what is chosen alive |
| `Laws.RetainedMeans` | crates/taypeer-document/src/binary.rs:21-42 | a blob is retained for an entry exactly when its projection, or the form of a confirmation that is not purged, names it as image or attachment |
| `Laws.AttachmentAlternativesAreRetained` | crates/taypeer-document/src/binary.rs:42-95 | every visible attachment alternative with an unpurged row is retained although only selected values are scanned, unless a resolution wrote it while its attachment was absent |
| `Laws.IconAlternativesAreRetained` | crates/taypeer-document/src/binary.rs:30-35 | every visible image icon with an unpurged row is retained, whatever wrote it |
| `Blobs.BlobReferences.Document` | crates/taypeer-document/src/binary.rs:44-80 | the loops over entries, selected values and rows collect exactly the retained blobs of every unpurged entry, and the attachment blobs that count towards the quota |
| `Blobs.DocumentRetains` | crates/taypeer-document/src/binary.rs:21-80 | a blob is retained exactly when an entry's shown or remembered form names it |
| `Blobs.DocumentAttaches` | crates/taypeer-document/src/binary.rs:21-80 | a blob counts towards the quota exactly when an attachment of such a form names it; images do not count |
| `Blobs.AlternativeIsRetained` | crates/taypeer-document/src/binary.rs:63-76 | in any sound document a visible alternative with an unpurged row, held by nothing else, is retained exactly when its attachment was present in the transaction that wrote it |
| `Blobs.ResolvedBlobIsRetained` | crates/taypeer-document/src/binary.rs:63-76 | right after a resolution of one blob at the current heads, a blob nothing held before is selected, and retained exactly when the attachment is present |
| `Witnesses.StrandedBlob` | crates/taypeer-document/src/operations.rs:257-289 | a run of create, delete and resolve ends in a valid document whose selected blob is not retained |
| `Witnesses.CreationsCollide` | crates/taypeer-document/src/tests.rs:837-878 | any two forks that create different entries with one new attribute identity are both structured and their union is not |
| `Witnesses.CollidingReplicas` | crates/taypeer-document/src/tests.rs:837-878 | two saves succeed on two replicas, the merge is refused as a duplicate, and the document stays |
| `Runs.ReachableIsSound` | crates/taypeer-document/src/lib.rs:502-836 | every replica in every reachable state is sound and structured, replicas agree on shared changes, and every draft in flight is grounded in its base |
| `Runs.ReplicasNeverForget` | crates/taypeer-document/src/lib.rs:815-836 | a replica keeps every change it ever held |
| `Runs.DraftsStayGrounded` | crates/taypeer-document/src/lib.rs:407-475 | any chain of begin, typing, saving and continuing leaves drafts whose original is the selected projection at their base, on every replica that knows it |
| `Runs.ContinuePreserves` | crates/taypeer-document/src/lib.rs:426-475 | continuing keeps the draft invariant |
| `Runs.DeletionOutlastsRuns` | crates/taypeer-document/src/fields.rs:201-259 | once a replica holds a deletion that no replica has revived yet, no run puts the identity back into its form unless a restoration or resolution sets that very presence |
| `Runs.ProtectionOutlastsRuns` | crates/taypeer-document/src/fields.rs:223-232 | a value protected at some moment of a run is selected protected later, unless a confirmation that saw it protected exposed it |
| `Runs.HistoryIsTwoPhase` | crates/taypeer-document/src/history.rs:148-237 | a purged revision never returns to a replica, and an unpurged one is never lost |
| `Runs.StepHistory` | crates/taypeer-document/src/lib.rs:783-836 | each confirmation adds exactly one row, a purge removes exactly its revisions, a merge or delivery joins both sides, anything else leaves history alone |
| `Metadata.ConfirmGroup` | crates/taypeer-document/src/metadata.rs:213-316 | a patch is refused exactly in the source's cases and order, commits nothing exactly when it changes nothing and has no receipt, and otherwise is one change at the reviewed heads, placed at the order of its destination, that keeps the document sound and structured |
| `Metadata.PatchMeans` | crates/taypeer-document/src/metadata.rs:285-308 | field by field: what is set is chosen, what is cleared is gone, a new parent comes with the allocated order, what is kept is not written, and what arrived since the review stays visible |
| `Metadata.PatchRoundTrip` | crates/taypeer-document/src/metadata.rs:229-308 | the transaction's own view shows the reviewed details with the patch applied, and nothing else changed |
| `Metadata.PatchKeepsTheRest` | crates/taypeer-document/src/metadata.rs:201-212 | a field the patch leaves alone keeps every visible value and its selection, whatever arrived since the review |
| `Metadata.PatchKeepsUnseen` | crates/taypeer-document/src/metadata.rs:285-303 | a written field keeps exactly the values its author had not seen, beside the new one |
| `Metadata.IdleMeansNothing` | crates/taypeer-document/src/metadata.rs:277-284 | an ordinary patch is dropped exactly when it means no change |
| `Metadata.ReadDetail` | crates/taypeer-document/src/metadata.rs:377-396 | the scan for the greatest operation gives the selected value |
| `Times.ReadTimes` | crates/taypeer-document/src/projection.rs:38-48 | one pass over all rows gives each entry exactly the operations its own rows list as changed, with their saved times |
| `Times.Rescan` | crates/taypeer-document/src/projection.rs:176-183 | rescanning one entry gives the same |
| `Times.TimesUnique` | crates/taypeer-document/src/projection.rs:33-49 | so cache and rescan are the same map, in any order of rows |
| `Times.ModificationTime` | crates/taypeer-document/src/projection.rs:154-194 | the result is the latest saved time among changes with a visible operation in a listed field or a visible placement that their row lists; the creation time is never needed |
| `Times.BothTimes` | crates/taypeer-document/src/projection.rs:174-183 | the cached and the rescanned modification time are the same |
| `Times.OnlyMovesCount` | crates/taypeer-document/src/lifecycle/mod.rs:467-490 | a visible placement counts exactly when a move wrote it; a creation, a clone or a restoration does not count |
| `Times.MoveIsModification` | crates/taypeer-document/src/lifecycle/commands.rs:296-311 | after a move the modification time is not before the move's |
| `Receipts.RecordedAnswers` | crates/taypeer-document/src/command_receipts.rs:39-63 | a recorded identity answers its own request with the first result and refuses every other request in either map |
| `Receipts.ExactlyOnce` | crates/taypeer-services/src/commands.rs:38-60 | over a whole run with deliveries in between, a request that ran is never run again and the document stays as it is; the answer is the first result exactly while its change is the only holder of the identity and the request repeats it, and otherwise a refusal |
| `Receipts.ServeMeans` | crates/taypeer-services/src/commands.rs:38-60 | a request runs exactly when its identity is not empty, no change holds it and its mutation succeeds; its change and its receipt then enter together, and in every other case nothing does |
| `Receipts.RanIsKept` | crates/taypeer-services/src/commands.rs:38-60 | over a whole run, once a request has been answered with success its change and its receipt are in the document at every later moment, whatever arrives |
| `Receipts.ReceiptsHaveChanges` | crates/taypeer-document/src/command_receipts.rs:76-100 | over a whole run no receipt stands without its change |
| `Receipts.CollidedRefuses` | crates/taypeer-document/src/operations.rs:79-100 | an identity that two changes hold, in whichever maps, refuses every request |
| `Receipts.CollidingRun` | crates/taypeer-document/src/command_receipts.rs:39-63 | two replicas that serve different requests under one identity hold it in one map each, and a join puts it into both |
| `Receipts.UnusedIsFree` | crates/taypeer-document/src/command_receipts.rs:39-63 | a request finds nothing exactly when no change holds its identity |
| `Receipts.LocalRunsStaySingle` | crates/taypeer-document/src/command_receipts.rs:76-100 | over any run of a replica that only serves its own requests, no identity is in both receipt maps |
| `Receipts.MergeCollides` | crates/taypeer-document/src/operations.rs:79-100 | a join of any two ledgers leaves an identity in both maps exactly when one side had it there or they held it in one each |
| `Receipts.LookupIsHonest` | crates/taypeer-document/src/binary.rs:99-116 | even after merges a lookup returns only what the single holder of the identity recorded |
| `Receipts.ReceiptBook.Write` | crates/taypeer-document/src/command_receipts.rs:76-100 | the receipt of a command is refused exactly for an empty identity or one in use at the base |
| `Receipts.ReceiptBook.Command` | crates/taypeer-services/src/commands.rs:38-60 | an unused identity runs the candidate and commits its change with its receipt, or nothing if it fails; a recorded one answers with its result to the same kind and fingerprint and refuses others; an empty or doubled one is refused |
| `Receipts.ReceiptBook.CommandHeads` | crates/taypeer-document/src/command_receipts.rs:21-36 | names exactly the one change that recorded the command, whatever arrived since |
| `Groups.Walk` | crates/taypeer-document/src/groups.rs:184-210 | from any start the walk finds a node of a cycle it runs into, namely the least by (placement rank, address), and finds it when started there |
| `Groups.FindRoots` | crates/taypeer-document/src/groups.rs:184-214 | the set of lifted nodes is the set of least cycle nodes, whatever order the walks take |
| `Groups.KeyMeans` | crates/taypeer-document/src/groups.rs:196-206 | nodes of a cycle are compared by counter and actor of their latest placement, then by the characters of their address |
| `Groups.OneRootPerCycle` | crates/taypeer-document/src/groups.rs:196-214 | each cycle of current groups loses exactly one edge |
| `Groups.LiftedIsAcyclic` | crates/taypeer-document/src/groups.rs:184-220 | no cycle of current groups survives lifting |
| `Groups.Pass` | crates/taypeer-document/src/groups.rs:234-279 | one pass raises every node against the statuses of the pass before and says whether any status changed |
| `Groups.Propagate` | crates/taypeer-document/src/groups.rs:234-283 | the status loop terminates in a stable state that lies above the initial one |
| `Groups.StatusesAreExact` | crates/taypeer-document/src/groups.rs:234-283 | the fixpoint is reachability: trashed exactly when a retained edge leads to the trash, active exactly when nothing on the way up fails |
| `Groups.TrashedExactly` | crates/taypeer-document/src/groups.rs:243-259 | an unpurged group ends in the trash exactly when some retained placement, selected or not, leads through unpurged groups to one trashed in its own right |
| `Groups.TrashIgnoresRepair` | crates/taypeer-document/src/groups.rs:212-233 | neither cycle lifting nor orphan repair changes what trash reaches |
| `Groups.Tree` | crates/taypeer-document/src/groups.rs:168-283 | the whole projection from the stored placements alone: who is listed, which parent each group keeps, who is trashed, and which groups are flagged; the ordinary list is a forest |
| `Groups.ProjectsExactly` | crates/taypeer-document/src/groups.rs:168-320 | a group is listed exactly when it and every group on its way up is current, active and without a retained placement that leads to trash; the way up follows stored selected parents and ends at a lifted cycle root or an absent parent |
| `Groups.TrashSteps` | crates/taypeer-document/src/groups.rs:243-259 | a group is trashed exactly when it is not purged and was trashed itself or some retained parent is trashed |
| `Groups.TopLevelIsListed` | crates/taypeer-document/src/groups.rs:307-320 | a current active group without a parent and away from the trash is listed at the top level |
| `Groups.ListedBelow` | crates/taypeer-document/src/groups.rs:243-279 | a group under a kept parent is listed exactly when it is in order itself and its parent is listed |
| `Groups.ListedParent` | crates/taypeer-document/src/groups.rs:212-229 | a listed group keeps its stored parent unless it is a cycle root or an orphan |
| `Groups.ListIsForest` | crates/taypeer-document/src/groups.rs:307-320 | every listed group hangs from the top level or from a listed group, and climbing from it ends |
| `Groups.ClosedCyclesDropOut` | crates/taypeer-document/src/groups.rs:307-320 | a cycle through a closed generation is never listed |
| `Order.DistinctSiblingsAreOrdered` | crates/taypeer-core/src/order.rs:66-75 | two distinct siblings are always strictly ordered, even at one stored key |
| `Order.SplitIsBetween` | crates/taypeer-core/src/order.rs:38-60 | splitting two completed paths gives a path strictly between them under every completing identity |
| `Order.AllocatedIsBetween` | crates/taypeer-core/src/order.rs:23-64 | a successful allocation lies strictly between its neighbours for every identity and adds at most two segments |
| `Order.AllocationFails` | crates/taypeer-core/src/order.rs:23-90 | allocation fails exactly for an empty operation, misordered bounds or an invalid or oversized path |
| `Order.AllocationSucceeds` | crates/taypeer-core/src/order.rs:23-90 | between neighbours in order an allocation always succeeds while the completed left neighbour, one rank and the operation fit into 4096 bytes |
| `Order.FirstAllocation` | crates/taypeer-core/src/order.rs:33-36 | the first position is the middle rank under the operation, refused exactly when the operation is empty or over the budget |
| `Order.PathLessMeans` | crates/taypeer-core/src/order.rs:66-75 | positions are compared at their first different segment, by rank and then by the characters of the identity |
| `Order.ValidMeans` | crates/taypeer-core/src/order.rs:77-90 | a position is valid exactly when it has segments, none without identity, and at most 4096 bytes |
| `Order.InsertionsKeepOrder` | crates/taypeer-core/src/order.rs:23-75 | any run of insertions keeps the sibling list strictly sorted and every existing key untouched |
| `Order.InsertPlaces` | crates/taypeer-core/src/order.rs:106-135 | an insertion puts its object at the asked place and moves nothing else |
| `Order.InsertedStays` | crates/taypeer-core/src/order.rs:106-135 | whatever was in the list at any moment of a run is in the final list in the same order |
| `Watcher.WatchLoop.Turn` | crates/taypeer-runtime/src/lib.rs:300-402 | for each event and each combination of reads: which revoke and why, which are ignored, when the epoch is taken over, when it is kept as pending, and when a wakeup is queued with its fingerprint remembered |
| `Watcher.TurnedExactly` | crates/taypeer-runtime/src/lib.rs:300-402 | the step functions of the machine are exactly that turn |
| `Watcher.PollCatchesUp` | crates/taypeer-runtime/src/lib.rs:349-402 | between rotations a whole poll accepts the finalized epoch, leaves nothing pending and remembers everything durable unless the slot is taken, so the next rotation may start |
| `Watcher.PollRemembers` | crates/taypeer-runtime/src/lib.rs:358-387 | with anything between its reads, a poll takes over the epoch that the final record names with nothing prepared, and keeps the old one with the new one pending when the prepared record names it |
| `Watcher.RoundsKeepSession` | crates/taypeer-runtime/src/lib.rs:349-387 | any number of rotations with a poll after each keeps the session open and at the latest epoch |
| `Watcher.NoLostWakeup` | crates/taypeer-runtime/src/lib.rs:195-292 | in every reachable state of an open session, when nothing is queued, being served or due for retry, an ApplyReceived that ended for good began after everything the watcher remembers was durable |
| `Watcher.PollNotices` | crates/taypeer-runtime/src/lib.rs:388-402 | a poll with the accepted epoch leaves nothing durable unnoticed unless a wakeup is already queued |
| `Watcher.BootedFollows` | crates/taypeer-runtime/src/lib.rs:195-250 | a session booted in any stage of a rotation, also when the epoch was committed after the first read, starts in the invariant |
| `Watcher.RotationKeepsSession` | crates/taypeer-runtime/src/lib.rs:349-387 | for every interleaving of prepare, commit, final and clear with the three reads the session stays open, as long as each rotation waits for the watcher |
| `Watcher.RevocationIsOvertaking` | crates/taypeer-runtime/src/host.rs:769-805 | without that discipline a poll revokes exactly when the prepared record, or with none the final record, names a later epoch |
| `Watcher.SecondRotationCanLockOut` | crates/taypeer-runtime/src/lib.rs:363-387 | a concrete run in which a second rotation makes the watcher revoke its own session |
| `Watcher.LostAuthorityRevokes` | crates/taypeer-runtime/src/lib.rs:349-357 | once the chain is frozen or admission lost, the first poll revokes even if every event was lost |
| `Watcher.PollFollowsRecords` | crates/taypeer-runtime/src/lib.rs:358-387 | whatever happens between its three reads, a poll that sees a new epoch stays open exactly when the session may follow epochs and the records, as each was read, name that epoch |
| `Watcher.UnbackedEpochRevokes` | crates/taypeer-runtime/src/lib.rs:358-387 | after any run, an epoch that no record names at the moment it is read revokes at the poll that sees it |
| `Checksum.ClassId` | apps/taypeer-android/verify_coverage.py:14-23 | the byte and bit loops compute the register function the lemmas are about |
| `Checksum.NormalisedMeans` | apps/taypeer-android/verify_coverage.py:16-17 | only the eighth byte of a class file of version 53 changes, to 52 |
| `Checksum.VersionsShareIdentity` | apps/taypeer-android/verify_coverage.py:14-23 | a class file of version 53 has the identity of the same file at version 52 |
| `Checksum.BitsAreTheNumber` | apps/taypeer-android/verify_coverage.py:19-20 | the bits fed for a byte are those of its number, least significant first |
| `Checksum.ShiftHalves` | apps/taypeer-android/verify_coverage.py:22 | the shift halves the register's number, and the bit that drops out is its parity |
| `Checksum.StepLinear` | apps/taypeer-android/verify_coverage.py:21-22 | one bit step is linear |
| `Checksum.StepInjective` | apps/taypeer-android/verify_coverage.py:21-22 | one bit step loses nothing |
| `Checksum.FeedAllAsWord` | apps/taypeer-android/verify_coverage.py:19-22 | eight bytes fed one by one act as one register-wide exclusive or followed by the bit steps |
| `Checksum.IdentityDetectsWindow` | apps/taypeer-android/verify_coverage.py:14-23 | two inputs of one length that differ only inside eight consecutive bytes share an identity exactly when they are the same after the version mapping |
| `Checksum.PolynomialIsTheConstant` | apps/taypeer-android/verify_coverage.py:22 | the polynomial of the register is the constant of the source |

## Left out

- The storage library itself: encoding, hashing, change identity by hash, compression, load and export. A change is named by the fresh actor it runs under, and actor freshness is a precondition of every write; failures of the random source are not modelled.
- Objects are addressed by their path (entry, attribute, attachment). Generations of one identity are not told apart. New identities are parameters, assumed unused where the source draws them at random.
- Lifecycle: trash, recovery, purge of objects, late sources and `objects.rs` generations. Whether a group is listed, an entry active in the draft's generation, or a parent unchanged since the base is a parameter of each operation.
- `Blobs.BlobReferences.Document`: group icons, group history and pending sources are left out of the scan, and the purged entries are a parameter, because groups keep no history rows here and late sources belong to the lifecycle.
- `Validating.ValidateStructure`: only what it checks of entries. Malformed stored values, the group tree, lifecycle records and the histories of groups and of the database are not part of this model.
- Rows keep the form of a snapshot, not its placement lists and conflicts. The `pending` argument of `modification_time` is left out: it gives the pending operations the time their row has once stored.
- `Runs.ReachableIsSound`: receipts are not part of the replicated state there. They are modelled in `Receipts` on a ledger beside the changes, one receipt for each change; requests are compared by kind and fingerprint, and results are opaque.
- `Laws.ProtectionHolds`: an explicit resolution may expose a value without a form, so only saves are required to say so in their form.
- `Metadata.ConfirmGroup`: history rows of groups and of the database, the database's two-field variant of the same patch, and the computation of the destination and sibling position are left out; the latter is a parameter.
- `EntryDocument.Document.MoveEntry`: receipts and the lifecycle of the entry and of the destination are parameters or left out; a destination is its group identity.
- `Order.Allocate`: fractional indices are real numbers, a dense order without ends, and their encoded width is an arbitrary function.
- `Watcher.RotationKeepsSession`: the two-second helper that waits for rotated credentials is left out; polls, ticks, backoff and event loss are nondeterministic steps, and latency is not claimed. The content fingerprint is a counter of durable deliveries.
- `Checksum.ClassId`: a register is the sequence of its 64 bits instead of a machine integer.
- `entries`, cloning and extraction of entries: they compose reading and saving, with fresh identities.
- Policies, sessions, credentials, trust chains, archives, worker processes, user interfaces and the other scripts of the repository.
