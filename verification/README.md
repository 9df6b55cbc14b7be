# surApp survey store, modelled in Dafny

This project models the core of the `surApp` Django application. The
application stores votings. A voting owns pages, a page owns questions and a
question owns choices. A vote names a user, a question and a choice. The model
covers the nested voting serializer and the REST views on top of it:

- create a voting from a nested payload;
- retrieve one voting;
- update a voting: overwrite its scalar fields, delete its whole tree, rebuild
  the tree from the payload;
- delete a voting;
- list one user's votings;
- the two small patches: the logic blobs, and the submit flag, with the
  database's conversion of the values they write unchecked;
- a PUT to either patch endpoint, which runs the full update;
- bulk vote submission;
- the per-voting vote list;
- the tally of votes per choice.

The database is one immutable `Store` value. It holds one finite map per table,
from auto-increment id to row, plus each table's next id. Rows point to their
parent by id, as the foreign keys do. Every operation is a pure function. It
returns either the new store or the response body, or a `Failure`:

| `Failure` | when the view returns it |
|---|---|
| `NotFound` | an unknown id, or a list request for someone else |
| `Invalid` | the request body fails field validation |
| `NotAuthor` | the requester is not the voting's author |
| `EmptyVoting` | votes are submitted to a voting without pages |
| `OutOfScope` | a submitted vote names a question of another voting |
| `SaveFailed` | a patch view wrote a value the database column refuses on save |

A failed call returns no store, so the caller's store is unchanged. This is
how the model expresses "all or nothing".

Files:

- `wrappers.dfy`: `Option` and `Result`.
- `tables.dfy`: tables as maps. `Select` is a child query: the ascending list
  of ids whose parent is in a given set.
- `models.dfy`: the five row types and the store. Integrity predicates:
  `Closed` (ids below the counters), `Linked` (foreign keys), `Bounded`
  (column widths). Also the cascading deletes.
- `serializers.dfy`: request bodies and their validation; building a tree
  (`Construct`) and rebuilding one (`Replace`); the nested representation
  (`Encode`).
- `tree_proofs.dfy`: what construction and replacement do to the store and
  to the representation.
- `views.dfy`: the endpoints.
- `view_proofs.dfy`: properties of the endpoints.
- `scenario.dfy`: a worked example. A one-page lunch poll is created, voted
  on and tallied. The example logic patch body from the bottom of
  `surApp/models.py` is applied to it.

The model keeps three behaviours of the code that a reader might not expect:

- The tally counts the votes that name a choice, whatever question those votes
  name. It does not count (question, choice) pairs.
- Bulk submission never checks that a vote's choice belongs to the vote's
  question.
- Deleting a question or a choice deletes the votes on it, because both
  foreign keys of `Vote` cascade.

## Model

| member | source | states |
|---|---|---|
| Models.DeletePages | surApp/serializers.py:70 | A voting's pages are deleted with everything below them: exactly the pages, questions and choices the voting owns disappear, and so does every vote naming one of those questions or choices. Every other row, and every counter, stays as it was. |
| Models.DeletePagesSound | surApp/models.py:21-39 | The cascade is closed under ownership: after the delete, every remaining foreign key still points to a live row. |
| Models.NoPagesLeft | surApp/serializers.py:70 | After the delete, the voting lists no page. |
| Models.DeleteVotingRow | surApp/views.py:67 | Deleting the voting row removes that voting only. The rest of the store is the cascade of its pages. |
| Models.DeleteVotingWellFormed | surApp/models.py:13-39 | Deleting a voting keeps every foreign key live and every column width respected. |
| Serializers.TrimStrips | surApp/serializers.py:46-52 | Stripping a text field, as the framework's character fields do, removes exactly the whitespace run at each end (Python's `str.isspace` set) and keeps the middle as sent. A nonempty result starts and ends with a non-space. |
| Serializers.TrimIdempotent | surApp/serializers.py:46-52 | Stripping stripped text changes nothing. |
| Serializers.Decode | surApp/serializers.py:46-52 | A body is accepted exactly when it meets the field rules. Every text field is first stripped of surrounding whitespace, and the stripped text is what is checked and handed on. Required fields must be present unless partial. Character fields must be non-blank and within their width. No text field may hold a NUL character. Nested lists are checked entry by entry. The error is `Invalid`. The author in the body is dropped. An accepted full body carries a title, a description and pages. An accepted body of either kind meets the partial rules. |
| Serializers.AddQuestions | surApp/serializers.py:60-64 | Questions get consecutive fresh ids, in payload order, each linked to its page, with the defaults filled in (type "checkbox", blank title). Every choice created hangs off one of the new questions. Only the question and choice tables change. |
| Serializers.AddPages | surApp/serializers.py:57-64 | Pages get consecutive fresh ids, in payload order, each linked to the voting (order 0 by default). Every question created hangs off one of the new pages. Every choice created hangs off one of the new questions. Only the three tree tables change. |
| TreeProofs.AddPagesShape | surApp/serializers.py:57-64 | Round trip: encoding the voting after its pages are built lists its earlier pages, then exactly the payload's pages, questions and choices (titles, types, order, names), in payload order. |
| TreeProofs.AddQuestionChoices | surApp/serializers.py:61-64 | A new question encodes exactly as its payload entry describes: its title, its type ("checkbox" by default) and its choices in payload order. A missing choice list gives no choices. |
| TreeProofs.AddQuestionsShape | surApp/serializers.py:60-64 | Round trip one level down: a page then lists its earlier questions followed by exactly the payload's questions with their choices. |
| TreeProofs.ConstructWellFormed | surApp/models.py:13-33 | Creating a voting from validated data keeps foreign keys live, ids below the counters, and titles, types and names within 100, 50 and 150 characters. |
| TreeProofs.ConstructBuildsPayload | surApp/serializers.py:54-65 | Create gives the voting a fresh id and the given author. It takes the scalar fields, defaulting to blank and false. Encoding it reproduces the payload's tree in payload order. Every other voting encodes as before. No vote changes. The store stays well formed. |
| TreeProofs.ConstructKeepsOthers | surApp/serializers.py:54-65 | Creating a voting leaves the representation of every existing voting unchanged. |
| TreeProofs.ReplaceWellFormed | surApp/serializers.py:67-79 | Update keeps the store well formed. |
| TreeProofs.ReplaceShape | surApp/serializers.py:68-78 | After update, the voting encodes exactly the payload's tree. When the data has no `pages`, it encodes no pages at all. |
| TreeProofs.ReplaceLeavesNoOldChild | surApp/serializers.py:70-78 | After update, none of the voting's old pages, questions or choices remain in the store. Every page, question and choice it now owns has an id at or above the old counter. |
| TreeProofs.ReplaceVotes | surApp/models.py:36-39 | After update, a vote survives exactly when it names neither a question nor a choice of the voting's old tree. A surviving vote is unchanged. |
| TreeProofs.ReplaceKeepsOthers | surApp/serializers.py:67-79 | Update leaves the representation of every other voting unchanged. |
| TreeProofs.ReplaceRebuildsPayload | surApp/serializers.py:67-79 | Update keeps the voting's id and author. It overwrites only the scalar fields present. It rebuilds exactly the payload's tree under fresh ids. Surviving votes are unchanged. The combined statement of the four lemmas above. |
| Views.CreateVoting | surApp/views.py:38-44 | Create succeeds exactly when the body (without its author) validates; otherwise it fails with `Invalid`. The new voting's author is the requester. |
| ViewProofs.CreateVotingBuilds | surApp/views.py:43-44 | Whatever author the body claims, the result is the same. The voting belongs to the requester and its representation carries the body's fields and tree, with text stripped as validation leaves it. Other votings and all votes are untouched. The store stays well formed. |
| Views.RetrieveVoting | surApp/views.py:110-121 | Retrieve fails with `NotFound` exactly when the id is unknown; otherwise it returns the voting with that id and its author. |
| Views.UpdateVoting | surApp/views.py:47-56 | Errors come in the framework's order: `NotFound` exactly for an unknown voting; `Invalid` exactly for a known voting with an invalid body; `NotAuthor` exactly for a valid body from a requester who is not the author. The update succeeds exactly when the voting exists, the body validates and the requester is the author. |
| ViewProofs.UpdateVotingRebuilds | surApp/views.py:52-56 | A successful update keeps the author (the requester). It takes the body's scalar fields, stripped, where present and keeps the rest. It represents exactly the body's (stripped) tree, and none when a partial body has no pages. Old questions are gone; new ones have fresh ids. Votes on the old tree go and all other votes stay, unchanged. Other votings are unchanged. |
| Views.DeleteVoting | surApp/views.py:58-67 | `NotFound` exactly for an unknown voting; `NotAuthor` exactly when the requester is not the author. The delete succeeds exactly when the voting exists and the requester is its author, and then the voting is gone. |
| ViewProofs.DeleteVotingRemoves | surApp/models.py:21-39 | A successful delete removes the voting, every page, question and choice it owned, and exactly the votes naming one of those questions or choices. The votes that stay are unchanged. Every other voting is represented as before and the store stays well formed. |
| Views.ListByUser | surApp/views.py:27-35 | A list request fails with `NotFound` exactly when the user asked about is not the requester; otherwise every listed voting exists and belongs to that user. |
| ViewProofs.ListByUserComplete | surApp/views.py:31-35 | A user's own listing succeeds. It holds the representation of every voting they authored, ascending by id. |
| Views.PatchLogic | surApp/views.py:189-205 | The logic patch fails with `NotFound` exactly for an unknown voting. It fails with `SaveFailed` exactly when the voting exists and the body sends null for either blob, since both text columns are not nullable. Then nothing is stored. Any other value is saved. |
| ViewProofs.PatchLogicEffect | surApp/views.py:195-205 | A logic patch that saves stores each blob the body carries, converted to text as the column does on save, and changes nothing else. A string is stored verbatim. Other fields, the tree, other votings and all votes are unchanged. The store stays well formed. |
| ViewProofs.PatchLogicRepeat | surApp/views.py:195-205 | Sending the same logic patch again changes nothing. Sending back the two blobs the response shows changes nothing either. |
| ViewProofs.TextSpellings | surApp/views.py:198-203 | Examples only, of Python's `str` of a non-string blob: true is stored as "True", 42 as "42", -7 as "-7". A null is refused. The all-numbers statement is the next row. |
| ViewProofs.DigitsNumeral | surApp/views.py:198-203 | The text stored for a whole number is its decimal numeral, for every number: digits only, no leading zero except for zero itself, and read back as a decimal it gives the number again. |
| Views.PatchSubmit | surApp/views.py:208-221 | The submit patch fails with `NotFound` exactly for an unknown voting. It fails with `SaveFailed` exactly when the voting exists and the body carries a flag the boolean column refuses on save. Then nothing is stored. |
| ViewProofs.PatchSubmitEffect | surApp/views.py:214-221 | A submit patch that saves stores the flag the body carries, as the column reads it, and changes nothing else. Other fields, the tree, other votings and all votes are unchanged. The store stays well formed. |
| ViewProofs.PatchSubmitRepeat | surApp/views.py:214-221 | Sending the same submit patch again changes nothing. Sending back the flag the response shows changes nothing either. |
| Views.PutOnPatchView | surApp/views.py:189-221 | A PUT to either patch endpoint fails with `NotFound` exactly for an unknown voting, and with `Invalid` exactly for a full body that fails validation. It succeeds exactly when the voting exists and the full body validates, whoever sends it, and then it rebuilds the voting exactly as an update by the voting's author would. |
| ViewProofs.PatchViewPutSkipsAuthor | surApp/views.py:189-221 | For a valid full body from someone who is not the author, the update endpoint refuses with `NotAuthor`, yet a PUT to a patch endpoint succeeds and rebuilds the voting. |
| Views.SubmitVotes | surApp/views.py:128-150 | On success, every entry was valid and named a question of the voting. Entry i is stored under id `nextVote + i` as exactly its (user, question, choice). Earlier votes are kept and nothing outside the vote table changes. |
| ViewProofs.PagesOfEmpty | surApp/views.py:131-133 | The page list of the voting is empty exactly when the voting owns no page. |
| ViewProofs.SubmitOutcomes | surApp/views.py:128-147 | Outcome by case, in the view's order. `NotFound` iff the voting is unknown. `EmptyVoting` iff it owns no page. `Invalid` iff some entry fails validation. `OutOfScope` iff all entries are valid but one names a question of another voting. Success iff none of these. |
| ViewProofs.SubmitKeepsStore | surApp/views.py:146-150 | A successful submission keeps the store well formed. It keeps every earlier vote and every voting's representation. |
| ViewProofs.ChoiceNeedNotMatchQuestion | surApp/views.py:139-144 | A vote naming a question of the voting is accepted together with any existing choice, even one that belongs to another question. |
| ViewProofs.SubmitCounts | surApp/views.py:178 | After a successful submission, each choice's count grows by exactly the number of submitted entries naming that choice. |
| ViewProofs.SubmitExtendsStatistic | surApp/views.py:158-162 | After a successful submission, the voting's vote list is the old list followed by the submitted votes, in the order sent. |
| Views.DetailStatistic | surApp/views.py:158-162 | Every vote listed for a voting names a question of that voting. |
| ViewProofs.DetailStatisticComplete | surApp/views.py:160 | The vote list holds every vote on a question of the voting, once each. A vote whose choice lies elsewhere is still listed. |
| ViewProofs.CountVotesCounts | surApp/views.py:178 | A choice's count equals the number of votes naming that choice, whatever question those votes name. |
| ViewProofs.TallyQuestions | surApp/views.py:167-175 | The tally lists every question of the voting and nothing else, once each, in id order, with the stored title and type. |
| ViewProofs.TallyChoices | surApp/views.py:176-185 | Each tally entry lists every choice of its question, zero-vote choices included, and nothing else. Each is listed once, in id order, with its name and its count. |
| Tables.SelectAppendCount | surApp/views.py:178 | Appending rows under fresh ids lengthens a count by exactly the number of appended rows that match it. |
| Scenario.PollLogic | surApp/models.py:118-122 | The example logic patch body stores both of its strings on a poll. A null blob is refused, and so is the submit flag sent as the string "true"; "True" is stored as true. |
| Scenario.PaddedTitle | surApp/views.py:38-44 | Example: a title sent as "  Lunch \n" creates the same poll as "Lunch", since the stored title is stripped. |
| Scenario.NulTitle | surApp/views.py:38-44 | Example: a title holding a NUL character is refused with `Invalid`. |
| Scenario.BlankTitle | surApp/views.py:38-44 | Example: a title of whitespace only is blank once stripped and is refused with `Invalid`. |
| Scenario.LunchPoll | surApp/views.py:128-185 | Worked example, with a one-page lunch poll of its own. The poll is built from a nested body by the create path, and only its author may delete it. Votes for an unknown voting, or from an unknown account, are refused. A valid batch is stored. The tally then shows every choice with its count, including a vote whose choice belongs to the other question. |

## Findings

| source | as written | input that shows it | evidently intended | confidence | as-written member | corrected member |
|---|---|---|---|---|---|---|
| surApp/views.py:189-221 | `VotingUpdateLogicView` and `VotingUpdateSubmitView` override only `partial_update`. A PUT to either runs the inherited full update, `VotingSerializer.update`, with no author check. | A valid full body sent with PUT to `api/add_logic/<pk>/` by a user who is not the author: the voting's fields are overwritten and its tree is deleted and rebuilt. | A full update of a voting goes through the author check of `VotingUpdateAPIView.perform_update`. | not executed; medium (the view's comments say only the named fields are to change) | Views.PutOnPatchView, shown by ViewProofs.PatchViewPutSkipsAuthor | Views.UpdateVoting, whose contract proves that a successful update came from the author |

## Left out

- Authentication is reduced to the requester's user id. This leaves out JWT
  login, logout and token validation, user registration, and the
  authenticated-only permission classes. The existing accounts are a parameter
  (`users`) of bulk submission.
- The Excel and JSON export views, `HomeView`, URL routing, the admin
  configuration and the unused `Survey` model are not part of this model. They
  only format output or wire up routes.
- HTTP status codes and response framing are left out; each refusal is one
  `Failure` value.
- Transactions and concurrent requests are not modelled. The model is
  sequential, and a refused request returns no store.
- Updating or deleting as a non-author raises a name error in the source,
  because `PermissionDenied` is never imported. The model reports it as
  `NotAuthor`; either way nothing is saved.
- The nested `create` methods of `PageSerializer`, `QuestionSerializer` and
  `ChoiceSerializer`, and `BulkVoteSerializer`, are never called on these paths
  and are not modelled. `VotingSerializer` builds the whole tree itself.
- Ids that a client sends inside nested bodies are read-only and are ignored.
- Django's default ordering is not modelled. Listings come back in insertion
  order, which for auto-increment keys is ascending id order. The source
  queries have no explicit ordering.
- Serializers.Decode: request bodies are typed. A null, a number, a list or an
  object where text is expected is not modelled. The framework refuses a null
  or a container and turns a number into its text. The same holds for
  `is_submit` and `order`: they arrive as a boolean and an integer. The
  framework's boolean field also takes spellings such as "yes", "on", "true"
  and 1, and its integer field takes "3" and 3.0; those are not modelled.
- Serializers.PageOk: does not bound a page's `order` to the database's 32-bit
  integer range, because integers in the model are unbounded.
- Views.PatchLogic: a JSON number with a fractional part is not modelled. The
  column would store Python's `str` of it. A list or an object is carried as
  the text Python's `str` gives for it, rather than being printed by the model.
- Views.PatchSubmit: a JSON number with a fractional part is not modelled. The
  boolean column would take 1.0 and 0.0 as true and false, and refuse any
  other.
- Views.SubmitVotes: the source also looks each entry's question up again
  before the scope check. That lookup cannot fail after validation and is not
  modelled separately.
