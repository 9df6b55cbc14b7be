/**
 * The endpoints of the survey application, each a function from the store
 * (and the request) to a `Failure` or the new store / the response body.
 * Authentication is reduced to the requester's user id, and the accounts
 * that exist are a parameter.
 */
module Views {
  import opened Wrappers
  import opened Tables
  import opened Models
  import opened Serializers
  import opened TreeProofs

  // ---------------------------------------------------------------------
  // Votings: create, read, update, delete, list.

  /**
   * `VotingCreateAPIView`: a full body is validated, then built under the
   * requester's name.  An author sent in the body is ignored.
   */
  function CreateVoting(s: Store, x: VotingInput, requester: UserId): (r: Result<Store, Failure>)
    ensures r.Ok? <==> DataOk(Incoming(x), false)
    ensures r.Err? ==> r.error == Invalid
    ensures r.Ok? ==> s.nextVoting in r.value.votings && r.value.votings[s.nextVoting].author == requester
  {
    match Decode(x, false)
    case Err(e) => Err(e)
    case Ok(d) => Ok(Construct(s, d, requester))
  }

  /** `VotingDetailView`: the nested representation, or `NotFound`. */
  function RetrieveVoting(s: Store, v: Id): (r: Result<VotingRep, Failure>)
    ensures r.Err? <==> v !in s.votings
    ensures r.Err? ==> r.error == NotFound
    ensures r.Ok? ==> r.value.id == v && r.value.author == s.votings[v].author
  {
    if v in s.votings then Ok(Encode(s, v)) else Err(NotFound)
  }

  /**
   * `VotingUpdateAPIView` (PUT when `partial` is false, PATCH when true).
   * The checks run in the framework's order: an unknown voting, then an
   * invalid body, then a requester who is not the author.
   */
  function UpdateVoting(s: Store, v: Id, x: VotingInput, partial: bool, requester: UserId)
    : (r: Result<Store, Failure>)
    ensures r.Err? && r.error == NotFound <==> v !in s.votings
    ensures r.Err? && r.error == Invalid <==> v in s.votings && !DataOk(Incoming(x), partial)
    ensures r.Err? && r.error == NotAuthor <==>
      v in s.votings && DataOk(Incoming(x), partial) && s.votings[v].author != requester
    ensures r.Ok? <==> v in s.votings && DataOk(Incoming(x), partial) && s.votings[v].author == requester
  {
    if v !in s.votings then Err(NotFound)
    else
      match Decode(x, partial)
      case Err(e) => Err(e)
      case Ok(d) => if s.votings[v].author != requester then Err(NotAuthor) else Ok(Replace(s, v, d))
  }

  /** `VotingDeleteAPIView`: only the author may delete; the whole subtree goes with the voting. */
  function DeleteVoting(s: Store, v: Id, requester: UserId): (r: Result<Store, Failure>)
    ensures r.Err? && r.error == NotFound <==> v !in s.votings
    ensures r.Err? && r.error == NotAuthor <==> v in s.votings && s.votings[v].author != requester
    ensures r.Ok? <==> v in s.votings && s.votings[v].author == requester
    ensures r.Ok? ==> v !in r.value.votings
  {
    if v !in s.votings then Err(NotFound)
    else if s.votings[v].author != requester then Err(NotAuthor)
    else Ok(DeleteVotingRow(s, v))
  }

  /** The votings of `u`, ascending by id. */
  function AuthoredBy(s: Store, u: UserId): seq<Id> {
    Select(s.votings, VotingAuthor, {u}, s.nextVoting)
  }

  /**
   * `VotingListByUserAPIView`: a user may list only their own votings;
   * asking for anybody else's is answered as if the page did not exist.
   */
  function ListByUser(s: Store, u: UserId, requester: UserId): (r: Result<seq<VotingRep>, Failure>)
    ensures r.Err? <==> u != requester
    ensures r.Err? ==> r.error == NotFound
    ensures r.Ok? ==> forall i :: 0 <= i < |r.value| ==> r.value[i].id in s.votings && r.value[i].author == u
  {
    if u != requester then Err(NotFound)
    else
      var ids := AuthoredBy(s, u);
      Ok(seq(|ids|, i requires 0 <= i < |ids| => Encode(s, ids[i])))
  }

  // ---------------------------------------------------------------------
  // The two patch endpoints.  Neither checks who is asking, and neither
  // validates the body: the values are written to the row as sent, and
  // only the database's own conversion on save can refuse them.

  /**
   * A value of a request body, as the patch views receive it.  A list or
   * an object is carried with the text Python's `str` gives for it.
   */
  datatype JsonValue =
    | JNull
    | JBool(b: bool)
    | JInt(n: int)
    | JStr(text: string)
    | JCompound(pyText: string)

  /** The decimal digits of `n`, most significant first. */
  function Digits(n: nat): string
    decreases n
  {
    var d := ['0', '1', '2', '3', '4', '5', '6', '7', '8', '9'][n % 10];
    if n < 10 then [d] else Digits(n / 10) + [d]
  }

  /**
   * What a text column stores for a value on save: a string as it is,
   * anything else as Python's `str` of it.  A null is refused, since the
   * column is not nullable.
   */
  function TextValue(j: JsonValue): Option<string> {
    match j
    case JNull => None
    case JBool(b) => Some(if b then "True" else "False")
    case JInt(n) => Some(if n < 0 then "-" + Digits(-n) else Digits(n))
    case JStr(t) => Some(t)
    case JCompound(t) => Some(t)
  }

  /**
   * What a boolean column stores for a value on save: the booleans, the
   * numbers 1 and 0 (equal to them in Python) and the six spellings
   * "t", "True", "1", "f", "False", "0".  Anything else, null included,
   * is refused.
   */
  function FlagValue(j: JsonValue): Option<bool> {
    match j
    case JBool(b) => Some(b)
    case JInt(n) => if n == 1 then Some(true) else if n == 0 then Some(false) else None
    case JStr(t) =>
      if t == "t" || t == "True" || t == "1" then Some(true)
      else if t == "f" || t == "False" || t == "0" then Some(false)
      else None
    case _ => None
  }

  /** The text stored for an optional body value; an absent or refused value keeps `current`. */
  function TextOr(o: Option<JsonValue>, current: string): string {
    if o.Some? then TextValue(o.value).GetOr(current) else current
  }

  /** The flag stored for an optional body value; an absent or refused value keeps `current`. */
  function FlagOr(o: Option<JsonValue>, current: bool): bool {
    if o.Some? then FlagValue(o.value).GetOr(current) else current
  }

  /**
   * `VotingUpdateLogicView.partial_update`: writes whichever of the two
   * logic blobs the body carries and saves the row.  A null in either
   * fails the save, and then nothing is stored.
   */
  function PatchLogic(s: Store, v: Id, pairs: Option<JsonValue>, hidden: Option<JsonValue>)
    : (r: Result<Store, Failure>)
    ensures r.Err? && r.error == NotFound <==> v !in s.votings
    ensures r.Err? && r.error == SaveFailed <==> v in s.votings && (pairs == Some(JNull) || hidden == Some(JNull))
    ensures r.Err? ==> r.error == NotFound || r.error == SaveFailed
  {
    if v !in s.votings then Err(NotFound)
    else if (pairs.Some? && TextValue(pairs.value).None?) || (hidden.Some? && TextValue(hidden.value).None?) then
      Err(SaveFailed)
    else
      var row := s.votings[v];
      var row' := row.(questionAnswerPairs := TextOr(pairs, row.questionAnswerPairs),
                       hiddenPages := TextOr(hidden, row.hiddenPages));
      Ok(s.(votings := s.votings[v := row']))
  }

  /**
   * `VotingUpdateSubmitView.partial_update`: writes the submitted flag if
   * the body carries one and saves the row.  A value the boolean column
   * does not accept fails the save, and then nothing is stored.
   */
  function PatchSubmit(s: Store, v: Id, isSubmit: Option<JsonValue>): (r: Result<Store, Failure>)
    ensures r.Err? && r.error == NotFound <==> v !in s.votings
    ensures r.Err? && r.error == SaveFailed <==> v in s.votings && isSubmit.Some? && FlagValue(isSubmit.value).None?
    ensures r.Err? ==> r.error == NotFound || r.error == SaveFailed
  {
    if v !in s.votings then Err(NotFound)
    else if isSubmit.Some? && FlagValue(isSubmit.value).None? then Err(SaveFailed)
    else
      var row := s.votings[v];
      Ok(s.(votings := s.votings[v := row.(isSubmit := FlagOr(isSubmit, row.isSubmit))]))
  }

  /**
   * A PUT to either patch endpoint.  Neither view overrides `update` or
   * `perform_update`, so the full voting serializer runs on the body with
   * no author check: the voting is rebuilt as if its author had sent it.
   */
  function PutOnPatchView(s: Store, v: Id, x: VotingInput, requester: UserId): (r: Result<Store, Failure>)
    ensures r.Err? && r.error == NotFound <==> v !in s.votings
    ensures r.Err? && r.error == Invalid <==> v in s.votings && !DataOk(Incoming(x), false)
    ensures r.Ok? <==> v in s.votings && DataOk(Incoming(x), false)
    ensures r.Ok? ==> r == UpdateVoting(s, v, x, false, s.votings[v].author)
  {
    if v !in s.votings then Err(NotFound)
    else
      match Decode(x, false)
      case Err(e) => Err(e)
      case Ok(d) => Ok(Replace(s, v, d))
  }

  // ---------------------------------------------------------------------
  // Votes.

  /** One entry of a bulk vote body; a key the client left out is `None`. */
  datatype VoteEntry = VoteEntry(user: Option<UserId>, question: Option<Id>, choice: Option<Id>)

  predicate Complete(e: VoteEntry) {
    e.user.Some? && e.question.Some? && e.choice.Some?
  }

  /**
   * `VoteSerializer` validation of one entry: all three keys present, each
   * naming an existing row.  Whether the choice belongs to the question is
   * not checked.
   */
  predicate EntryOk(s: Store, users: set<UserId>, e: VoteEntry) {
    Complete(e) && e.user.value in users && e.question.value in s.questions && e.choice.value in s.choices
  }

  function EntryVote(e: VoteEntry): Vote
    requires Complete(e)
  {
    Vote(e.user.value, e.question.value, e.choice.value)
  }

  function NewVotes(entries: seq<VoteEntry>): (r: seq<Vote>)
    requires forall i :: 0 <= i < |entries| ==> Complete(entries[i])
  {
    seq(|entries|, i requires 0 <= i < |entries| => EntryVote(entries[i]))
  }

  /**
   * `VoteBulkCreateView.post`: an unknown voting, then a voting without
   * pages, then any invalid entry, then any entry whose question lies
   * outside the voting refuses the whole batch; otherwise every entry is
   * stored, in order, under fresh ids.
   */
  function SubmitVotes(s: Store, users: set<UserId>, v: Id, entries: seq<VoteEntry>)
    : (r: Result<Store, Failure>)
    ensures r.Ok? ==> r.value.nextVote == s.nextVote + |entries|
    ensures r.Ok? ==> r.value == s.(votes := r.value.votes, nextVote := r.value.nextVote)
    ensures r.Ok? ==> Grows(s.votes, s.nextVote, r.value.votes, r.value.nextVote)
    ensures r.Ok? ==> forall i :: 0 <= i < |entries| ==>
      && EntryOk(s, users, entries[i]) && QuestionIn(s, entries[i].question.value, v)
      && r.value.votes[s.nextVote + i] == EntryVote(entries[i])
  {
    if v !in s.votings then Err(NotFound)
    else if PagesOf(s, v) == [] then Err(EmptyVoting)
    else if !(forall i :: 0 <= i < |entries| ==> EntryOk(s, users, entries[i])) then Err(Invalid)
    else if !(forall i :: 0 <= i < |entries| ==> QuestionIn(s, entries[i].question.value, v)) then Err(OutOfScope)
    else
      var rows := NewVotes(entries);
      Ok(s.(votes := Append(s.votes, s.nextVote, rows), nextVote := s.nextVote + |rows|))
  }

  /** `question__page__voting_id = v`: the questions a vote for `v` may name. */
  function QuestionSet(s: Store, v: Id): set<Id> {
    set q | q in s.questions && QuestionIn(s, q, v)
  }

  /** `DetailStatisticAPIView`: the votes on questions of the voting, in insertion order. */
  function DetailStatistic(s: Store, v: Id): (r: seq<Vote>)
    ensures forall i :: 0 <= i < |r| ==> QuestionIn(s, r[i].question, v)
  {
    var ids := Select(s.votes, VoteQuestion, QuestionSet(s, v), s.nextVote);
    seq(|ids|, i requires 0 <= i < |ids| => s.votes[ids[i]])
  }

  // ---------------------------------------------------------------------
  // The tally.

  datatype ChoiceCount = ChoiceCount(choice: Id, name: string, votes: nat)

  datatype QuestionCount = QuestionCount(question: Id, title: string, qtype: string, choices: seq<ChoiceCount>)

  /** The votes that name choice `c`, whatever question they name. */
  ghost function VotesFor(s: Store, c: Id): set<Id> {
    set x | x in s.votes && s.votes[x].choice == c
  }

  /** `Vote.objects.filter(choice_id=c).count()`. */
  function CountVotes(s: Store, c: Id): nat {
    |Select(s.votes, VoteChoice, {c}, s.nextVote)|
  }

  function CountChoice(s: Store, c: Id): ChoiceCount
    requires c in s.choices
  {
    ChoiceCount(c, s.choices[c].name, CountVotes(s, c))
  }

  function CountQuestion(s: Store, q: Id): QuestionCount
    requires q in s.questions
  {
    var cs := ChoicesOf(s, q);
    QuestionCount(q, s.questions[q].title, s.questions[q].qtype,
                  seq(|cs|, i requires 0 <= i < |cs| => CountChoice(s, cs[i])))
  }

  /** `PollDetailAPIView`: every question of the voting with every choice and its count. */
  function Tally(s: Store, v: Id): seq<QuestionCount> {
    var qs := QuestionsOfVoting(s, v);
    seq(|qs|, i requires 0 <= i < |qs| => CountQuestion(s, qs[i]))
  }
}
