/**
 * The nested voting serializer: request bodies, their validation, the
 * construction of a voting tree from a body (create), the replacement of a
 * voting's tree (update), and the nested representation of a stored voting.
 */
module Serializers {
  import opened Wrappers
  import opened Tables
  import opened Models

  // ---------------------------------------------------------------------
  // Request bodies.  A field the client left out is `None`; ids sent by
  // the client are read-only and ignored, so they do not appear here.

  datatype ChoiceInput = ChoiceInput(name: Option<string>)

  datatype QuestionInput = QuestionInput(
    title: Option<string>, qtype: Option<string>, choices: Option<seq<ChoiceInput>>)

  datatype PageInput = PageInput(
    title: Option<string>, order: Option<int>, questions: Option<seq<QuestionInput>>)

  datatype VotingInput = VotingInput(
    title: Option<string>,
    description: Option<string>,
    author: Option<UserId>,   // read-only: never stored
    isSubmit: Option<bool>,
    questionAnswerPairs: Option<string>,
    hiddenPages: Option<string>,
    pages: Option<seq<PageInput>>)

  /** Validated data: the body without the read-only author. */
  datatype VotingData = VotingData(
    title: Option<string>,
    description: Option<string>,
    isSubmit: Option<bool>,
    questionAnswerPairs: Option<string>,
    hiddenPages: Option<string>,
    pages: Option<seq<PageInput>>)

  // ---------------------------------------------------------------------
  // Whitespace.  Every character field of the serializer strips the text
  // it receives before checking it, and stores the stripped text.

  /** Python's `str.isspace` for one character. */
  predicate IsSpace(c: char) {
    || '\U{9}' <= c <= '\U{D}' || '\U{1C}' <= c <= ' '
    || c == '\U{85}' || c == '\U{A0}' || c == '\U{1680}' || '\U{2000}' <= c <= '\U{200A}'
    || c == '\U{2028}' || c == '\U{2029}' || c == '\U{202F}' || c == '\U{205F}' || c == '\U{3000}'
  }

  function TrimStart(t: string): string {
    if |t| > 0 && IsSpace(t[0]) then TrimStart(t[1..]) else t
  }

  function TrimEnd(t: string): string {
    if |t| > 0 && IsSpace(t[|t| - 1]) then TrimEnd(t[..|t| - 1]) else t
  }

  /** Python's `str.strip()`: the text without its leading and trailing whitespace. */
  function Trim(t: string): string {
    TrimEnd(TrimStart(t))
  }

  lemma {:induction false} TrimStartDrops(t: string)
    ensures |TrimStart(t)| <= |t| && TrimStart(t) == t[|t| - |TrimStart(t)|..]
    ensures forall k :: 0 <= k < |t| - |TrimStart(t)| ==> IsSpace(t[k])
    ensures TrimStart(t) != [] ==> !IsSpace(TrimStart(t)[0])
    decreases |t|
  {
    if |t| > 0 && IsSpace(t[0]) {
      TrimStartDrops(t[1..]);
      assert t[1..][|t[1..]| - |TrimStart(t[1..])|..] == t[|t| - |TrimStart(t)|..];
    }
  }

  lemma {:induction false} TrimEndDrops(t: string)
    ensures |TrimEnd(t)| <= |t| && TrimEnd(t) == t[..|TrimEnd(t)|]
    ensures forall k :: |TrimEnd(t)| <= k < |t| ==> IsSpace(t[k])
    ensures TrimEnd(t) != [] ==> !IsSpace(TrimEnd(t)[|TrimEnd(t)| - 1])
    decreases |t|
  {
    if |t| > 0 && IsSpace(t[|t| - 1]) {
      TrimEndDrops(t[..|t| - 1]);
    }
  }

  /**
   * `Trim` is `str.strip()`: it cuts a run of whitespace from each end and
   * nothing else, and what is left neither starts nor ends with whitespace.
   */
  lemma TrimStrips(t: string)
    ensures |TrimStart(t)| <= |t|
    ensures var i := |t| - |TrimStart(t)|;
      && i + |Trim(t)| <= |t| && Trim(t) == t[i..i + |Trim(t)|]
      && (forall k :: 0 <= k < i ==> IsSpace(t[k]))
      && (forall k :: i + |Trim(t)| <= k < |t| ==> IsSpace(t[k]))
    ensures Trim(t) != [] ==> !IsSpace(Trim(t)[0]) && !IsSpace(Trim(t)[|Trim(t)| - 1])
  {
    var u := TrimStart(t);
    TrimStartDrops(t);
    TrimEndDrops(u);
    var i := |t| - |u|;
    assert Trim(t) == u[..|Trim(t)|];
    forall k | i + |Trim(t)| <= k < |t| ensures IsSpace(t[k]) {
      assert t[k] == u[k - i];
    }
  }

  /** Text that neither starts nor ends with whitespace is left as it is. */
  lemma TrimKeeps(t: string)
    requires t == [] || (!IsSpace(t[0]) && !IsSpace(t[|t| - 1]))
    ensures Trim(t) == t
  {
  }

  /** Stripping twice is stripping once. */
  lemma TrimIdempotent(t: string)
    ensures Trim(Trim(t)) == Trim(t)
  {
    TrimStrips(t);
    TrimKeeps(Trim(t));
  }

  function TrimField(f: Option<string>): Option<string> {
    if f.Some? then Some(Trim(f.value)) else None
  }

  // ---------------------------------------------------------------------
  // Field rules, on the stripped text.  A field without a model default is
  // required, except in a partial update; character fields may not be
  // blank, have a width, and may not hold a NUL character.

  predicate Required<T>(f: Option<T>, partial: bool) {
    f.Some? || partial
  }

  predicate CharOk(f: Option<string>, max: nat) {
    f.None? || (0 < |f.value| <= max && '\0' !in f.value)
  }

  /** A text field: not blank, no width. */
  predicate TextOk(f: Option<string>) {
    f.None? || (0 < |f.value| && '\0' !in f.value)
  }

  /** A text field that may be blank. */
  predicate BlankOk(f: Option<string>) {
    f.None? || '\0' !in f.value
  }

  predicate ChoiceOk(c: ChoiceInput, partial: bool) {
    Required(c.name, partial) && CharOk(c.name, NameMax)
  }

  predicate QuestionOk(q: QuestionInput, partial: bool) {
    && Required(q.title, partial) && CharOk(q.title, TitleMax)
    && CharOk(q.qtype, TypeMax)
    && Required(q.choices, partial)
    && (q.choices.Some? ==> forall i :: 0 <= i < |q.choices.value| ==> ChoiceOk(q.choices.value[i], partial))
  }

  predicate PageOk(p: PageInput, partial: bool) {
    && Required(p.title, partial) && CharOk(p.title, TitleMax)
    && Required(p.questions, partial)
    && (p.questions.Some? ==> forall i :: 0 <= i < |p.questions.value| ==> QuestionOk(p.questions.value[i], partial))
  }

  predicate PagesOk(ps: seq<PageInput>, partial: bool) {
    forall i :: 0 <= i < |ps| ==> PageOk(ps[i], partial)
  }

  predicate DataOk(d: VotingData, partial: bool) {
    && Required(d.title, partial) && CharOk(d.title, TitleMax)
    && Required(d.description, partial) && TextOk(d.description)
    && BlankOk(d.questionAnswerPairs) && BlankOk(d.hiddenPages)
    && Required(d.pages, partial)
    && (d.pages.Some? ==> PagesOk(d.pages.value, partial))
  }

  function CleanChoice(c: ChoiceInput): ChoiceInput {
    ChoiceInput(TrimField(c.name))
  }

  function CleanQuestion(q: QuestionInput): QuestionInput {
    var cs := q.choices;
    QuestionInput(TrimField(q.title), TrimField(q.qtype),
                  if cs.Some? then Some(seq(|cs.value|, i requires 0 <= i < |cs.value| => CleanChoice(cs.value[i])))
                  else None)
  }

  function CleanPage(p: PageInput): PageInput {
    var qs := p.questions;
    PageInput(TrimField(p.title), p.order,
              if qs.Some? then Some(seq(|qs.value|, i requires 0 <= i < |qs.value| => CleanQuestion(qs.value[i])))
              else None)
  }

  /** A page list with every text field stripped. */
  function CleanPages(ps: seq<PageInput>): seq<PageInput> {
    seq(|ps|, i requires 0 <= i < |ps| => CleanPage(ps[i]))
  }

  /**
   * The data `is_valid` hands on: the body without its read-only author,
   * every text field stripped.
   */
  function Incoming(x: VotingInput): VotingData {
    VotingData(TrimField(x.title), TrimField(x.description), x.isSubmit,
               TrimField(x.questionAnswerPairs), TrimField(x.hiddenPages),
               if x.pages.Some? then Some(CleanPages(x.pages.value)) else None)
  }

  /**
   * `serializer.is_valid()`: the validated (stripped) data, or `Invalid`.  A full
   * (non-partial) body always yields a title, a description and a page list;
   * any accepted body respects every column width.
   */
  function Decode(x: VotingInput, partial: bool): (r: Result<VotingData, Failure>)
    ensures r.Ok? <==> DataOk(Incoming(x), partial)
    ensures r.Err? ==> r.error == Invalid
    ensures r.Ok? ==> r.value == Incoming(x) && DataOk(r.value, true)
    ensures r.Ok? && !partial ==> r.value.title.Some? && r.value.description.Some? && r.value.pages.Some?
  {
    var d := Incoming(x);
    if DataOk(d, partial) then
      assert DataOk(d, true) by {
        if d.pages.Some? {
          var ps := d.pages.value;
          forall i | 0 <= i < |ps| ensures PageOk(ps[i], true) {
            var qs := ps[i].questions;
            if qs.Some? {
              forall j | 0 <= j < |qs.value| ensures QuestionOk(qs.value[j], true) {
                assert QuestionOk(qs.value[j], partial);
              }
            }
          }
        }
      }
      Ok(d)
    else Err(Invalid)
  }

  // ---------------------------------------------------------------------
  // Rows created from validated data, with the model defaults filled in.

  function NewChoice(q: Id, c: ChoiceInput): Choice {
    Choice(q, c.name.GetOr(BlankDefault))
  }

  function NewQuestion(p: Id, q: QuestionInput): Question {
    Question(p, q.title.GetOr(BlankDefault), q.qtype.GetOr(DefaultType))
  }

  function NewPage(v: Id, p: PageInput): Page {
    Page(v, p.title.GetOr(BlankDefault), p.order.GetOr(DefaultOrder))
  }

  function NewVoting(d: VotingData, author: UserId): Voting {
    Voting(d.title.GetOr(BlankDefault), d.description.GetOr(BlankDefault), author,
           d.isSubmit.GetOr(false), d.questionAnswerPairs.GetOr(BlankDefault),
           d.hiddenPages.GetOr(BlankDefault))
  }

  /** `super().update(instance, validated_data)`: only the fields present are written. */
  function Overwrite(v: Voting, d: VotingData): Voting {
    Voting(d.title.GetOr(v.title), d.description.GetOr(v.description), v.author,
           d.isSubmit.GetOr(v.isSubmit), d.questionAnswerPairs.GetOr(v.questionAnswerPairs),
           d.hiddenPages.GetOr(v.hiddenPages))
  }

  // ---------------------------------------------------------------------
  // Construction.  Each loop of the serializer becomes a recursion over the
  // payload list; a missing nested list is treated as empty.

  function AddChoices(s: Store, q: Id, cs: seq<ChoiceInput>): Store {
    var rows := seq(|cs|, i requires 0 <= i < |cs| => NewChoice(q, cs[i]));
    s.(choices := Append(s.choices, s.nextChoice, rows), nextChoice := s.nextChoice + |cs|)
  }

  /** `Question.objects.create`: the row goes in under the next id. */
  function AddQuestionRow(s: Store, row: Question): Store {
    s.(questions := s.questions[s.nextQuestion := row], nextQuestion := s.nextQuestion + 1)
  }

  function AddQuestion(s: Store, p: Id, q: QuestionInput): Store {
    AddChoices(AddQuestionRow(s, NewQuestion(p, q)), s.nextQuestion, q.choices.GetOr([]))
  }

  /**
   * `r` is `s` plus one question of page `p` under the next id, followed by
   * its choices in payload order; only the question and choice tables change.
   */
  ghost predicate QuestionAdded(s: Store, p: Id, q: QuestionInput, r: Store) {
    && r.nextQuestion == s.nextQuestion + 1
    && r == s.(questions := r.questions, nextQuestion := r.nextQuestion,
               choices := r.choices, nextChoice := r.nextChoice)
    && Grows(s.questions, s.nextQuestion, r.questions, r.nextQuestion)
    && r.questions[s.nextQuestion] == NewQuestion(p, q)
    && r.nextChoice == s.nextChoice + |q.choices.GetOr([])|
    && Grows(s.choices, s.nextChoice, r.choices, r.nextChoice)
    && (forall k :: s.nextChoice <= k < r.nextChoice ==>
          r.choices[k] == NewChoice(s.nextQuestion, q.choices.GetOr([])[k - s.nextChoice]))
  }

  lemma AddQuestionEffect(s: Store, p: Id, q: QuestionInput)
    ensures QuestionAdded(s, p, q, AddQuestion(s, p, q))
  {
  }

  /**
   * `r` is `s` plus one question of page `p` per payload entry, in payload
   * order, under fresh ids, each followed by its choices; every new choice
   * hangs off one of the new questions; only those two tables change.
   */
  ghost predicate QuestionsAdded(s: Store, p: Id, qs: seq<QuestionInput>, r: Store) {
    && r.nextQuestion == s.nextQuestion + |qs|
    && r == s.(questions := r.questions, nextQuestion := r.nextQuestion,
               choices := r.choices, nextChoice := r.nextChoice)
    && Grows(s.questions, s.nextQuestion, r.questions, r.nextQuestion)
    && (forall k :: s.nextQuestion <= k < r.nextQuestion ==> r.questions[k] == NewQuestion(p, qs[k - s.nextQuestion]))
    && Grows(s.choices, s.nextChoice, r.choices, r.nextChoice)
    && (forall k :: s.nextChoice <= k < r.nextChoice ==> s.nextQuestion <= r.choices[k].question < r.nextQuestion)
  }

  /** The first question, then the rest, add up to the whole list. */
  lemma AddQuestionsStep(s: Store, s1: Store, r: Store, p: Id, qs: seq<QuestionInput>)
    requires qs != []
    requires QuestionAdded(s, p, qs[0], s1)
    requires QuestionsAdded(s1, p, qs[1..], r)
    ensures QuestionsAdded(s, p, qs, r)
  {
    QuestionsStepQuestions(s, s1, r, p, qs);
    QuestionsStepChoices(s, s1, r, p, qs);
  }

  lemma QuestionsStepQuestions(s: Store, s1: Store, r: Store, p: Id, qs: seq<QuestionInput>)
    requires qs != []
    requires QuestionAdded(s, p, qs[0], s1)
    requires QuestionsAdded(s1, p, qs[1..], r)
    ensures Grows(s.questions, s.nextQuestion, r.questions, r.nextQuestion)
    ensures forall k :: s.nextQuestion <= k < r.nextQuestion ==> r.questions[k] == NewQuestion(p, qs[k - s.nextQuestion])
  {
    GrowsChain(s.questions, s.nextQuestion, s1.questions, s1.nextQuestion, r.questions, r.nextQuestion);
    forall k | s.nextQuestion < k < r.nextQuestion ensures r.questions[k] == NewQuestion(p, qs[k - s.nextQuestion]) {
      assert r.questions[k] == NewQuestion(p, qs[1..][k - s1.nextQuestion]);
    }
  }

  lemma QuestionsStepChoices(s: Store, s1: Store, r: Store, p: Id, qs: seq<QuestionInput>)
    requires qs != []
    requires QuestionAdded(s, p, qs[0], s1)
    requires QuestionsAdded(s1, p, qs[1..], r)
    ensures Grows(s.choices, s.nextChoice, r.choices, r.nextChoice)
    ensures forall k :: s.nextChoice <= k < r.nextChoice ==> s.nextQuestion <= r.choices[k].question < r.nextQuestion
  {
    GrowsChain(s.choices, s.nextChoice, s1.choices, s1.nextChoice, r.choices, r.nextChoice);
    forall k | s.nextChoice <= k < r.nextChoice ensures s.nextQuestion <= r.choices[k].question < r.nextQuestion {
      if k < s1.nextChoice {
        assert r.choices[k] == s1.choices[k];
      }
    }
  }

  /** Creates the questions of page `p`, each followed by its choices. */
  function AddQuestions(s: Store, p: Id, qs: seq<QuestionInput>): (r: Store)
    ensures QuestionsAdded(s, p, qs, r)
    decreases |qs|
  {
    if qs == [] then s
    else
      var s1 := AddQuestion(s, p, qs[0]);
      AddQuestionEffect(s, p, qs[0]);
      var r := AddQuestions(s1, p, qs[1..]);
      AddQuestionsStep(s, s1, r, p, qs);
      r
  }

  /** `Page.objects.create`: the row goes in under the next id. */
  function AddPageRow(s: Store, row: Page): Store {
    s.(pages := s.pages[s.nextPage := row], nextPage := s.nextPage + 1)
  }

  function AddPage(s: Store, v: Id, p: PageInput): Store {
    AddQuestions(AddPageRow(s, NewPage(v, p)), s.nextPage, p.questions.GetOr([]))
  }

  /**
   * `r` is `s` plus one page of voting `v` under the next id, followed by
   * its questions and their choices; only the three tree tables change.
   */
  ghost predicate PageAdded(s: Store, v: Id, p: PageInput, r: Store) {
    && r.nextPage == s.nextPage + 1
    && r == s.(pages := r.pages, nextPage := r.nextPage,
               questions := r.questions, nextQuestion := r.nextQuestion,
               choices := r.choices, nextChoice := r.nextChoice)
    && Grows(s.pages, s.nextPage, r.pages, r.nextPage)
    && r.pages[s.nextPage] == NewPage(v, p)
    && Grows(s.questions, s.nextQuestion, r.questions, r.nextQuestion)
    && (forall k :: s.nextQuestion <= k < r.nextQuestion ==> r.questions[k].page == s.nextPage)
    && Grows(s.choices, s.nextChoice, r.choices, r.nextChoice)
    && (forall k :: s.nextChoice <= k < r.nextChoice ==> s.nextQuestion <= r.choices[k].question < r.nextQuestion)
  }

  lemma AddPageEffect(s: Store, v: Id, p: PageInput)
    ensures PageAdded(s, v, p, AddPage(s, v, p))
  {
    var id := s.nextPage;
    var s1 := AddPageRow(s, NewPage(v, p));
    var qs := p.questions.GetOr([]);
    var r := AddQuestions(s1, id, qs);
    assert QuestionsAdded(s1, id, qs, r);
  }

  /**
   * `r` is `s` plus one page of voting `v` per payload entry, in payload
   * order, under fresh ids; every new question hangs off a new page and
   * every new choice off a new question; votings and votes are untouched.
   */
  ghost predicate PagesAdded(s: Store, v: Id, ps: seq<PageInput>, r: Store) {
    && r.nextPage == s.nextPage + |ps|
    && r == s.(pages := r.pages, nextPage := r.nextPage,
               questions := r.questions, nextQuestion := r.nextQuestion,
               choices := r.choices, nextChoice := r.nextChoice)
    && Grows(s.pages, s.nextPage, r.pages, r.nextPage)
    && (forall k :: s.nextPage <= k < r.nextPage ==> r.pages[k] == NewPage(v, ps[k - s.nextPage]))
    && Grows(s.questions, s.nextQuestion, r.questions, r.nextQuestion)
    && (forall k :: s.nextQuestion <= k < r.nextQuestion ==> s.nextPage <= r.questions[k].page < r.nextPage)
    && Grows(s.choices, s.nextChoice, r.choices, r.nextChoice)
    && (forall k :: s.nextChoice <= k < r.nextChoice ==> s.nextQuestion <= r.choices[k].question < r.nextQuestion)
  }

  /** The first page, then the rest, add up to the whole list. */
  lemma AddPagesStep(s: Store, s1: Store, r: Store, v: Id, ps: seq<PageInput>)
    requires ps != []
    requires PageAdded(s, v, ps[0], s1)
    requires PagesAdded(s1, v, ps[1..], r)
    ensures PagesAdded(s, v, ps, r)
  {
    PagesStepPages(s, s1, r, v, ps);
    PagesStepQuestions(s, s1, r, v, ps);
    PagesStepChoices(s, s1, r, v, ps);
  }

  lemma PagesStepPages(s: Store, s1: Store, r: Store, v: Id, ps: seq<PageInput>)
    requires ps != []
    requires PageAdded(s, v, ps[0], s1)
    requires PagesAdded(s1, v, ps[1..], r)
    ensures Grows(s.pages, s.nextPage, r.pages, r.nextPage)
    ensures forall k :: s.nextPage <= k < r.nextPage ==> r.pages[k] == NewPage(v, ps[k - s.nextPage])
  {
    GrowsChain(s.pages, s.nextPage, s1.pages, s1.nextPage, r.pages, r.nextPage);
    forall k | s.nextPage < k < r.nextPage ensures r.pages[k] == NewPage(v, ps[k - s.nextPage]) {
      assert r.pages[k] == NewPage(v, ps[1..][k - s1.nextPage]);
    }
  }

  lemma PagesStepQuestions(s: Store, s1: Store, r: Store, v: Id, ps: seq<PageInput>)
    requires ps != []
    requires PageAdded(s, v, ps[0], s1)
    requires PagesAdded(s1, v, ps[1..], r)
    ensures Grows(s.questions, s.nextQuestion, r.questions, r.nextQuestion)
    ensures forall k :: s.nextQuestion <= k < r.nextQuestion ==> s.nextPage <= r.questions[k].page < r.nextPage
  {
    GrowsChain(s.questions, s.nextQuestion, s1.questions, s1.nextQuestion, r.questions, r.nextQuestion);
    forall k | s.nextQuestion <= k < r.nextQuestion ensures s.nextPage <= r.questions[k].page < r.nextPage {
      if k < s1.nextQuestion {
        assert r.questions[k] == s1.questions[k];
      }
    }
  }

  lemma PagesStepChoices(s: Store, s1: Store, r: Store, v: Id, ps: seq<PageInput>)
    requires ps != []
    requires PageAdded(s, v, ps[0], s1)
    requires PagesAdded(s1, v, ps[1..], r)
    ensures Grows(s.choices, s.nextChoice, r.choices, r.nextChoice)
    ensures forall k :: s.nextChoice <= k < r.nextChoice ==> s.nextQuestion <= r.choices[k].question < r.nextQuestion
  {
    GrowsChain(s.choices, s.nextChoice, s1.choices, s1.nextChoice, r.choices, r.nextChoice);
    forall k | s.nextChoice <= k < r.nextChoice ensures s.nextQuestion <= r.choices[k].question < r.nextQuestion {
      if k < s1.nextChoice {
        assert r.choices[k] == s1.choices[k];
      }
    }
  }

  /** Creates the pages of voting `v` with their questions and choices. */
  function AddPages(s: Store, v: Id, ps: seq<PageInput>): (r: Store)
    ensures PagesAdded(s, v, ps, r)
    decreases |ps|
  {
    if ps == [] then s
    else
      var s1 := AddPage(s, v, ps[0]);
      AddPageEffect(s, v, ps[0]);
      var r := AddPages(s1, v, ps[1..]);
      AddPagesStep(s, s1, r, v, ps);
      r
  }

  /** `Voting.objects.create`: the row goes in under the next id. */
  function AddVotingRow(s: Store, row: Voting): Store {
    s.(votings := s.votings[s.nextVoting := row], nextVoting := s.nextVoting + 1)
  }

  /** `VotingSerializer.create`: a fresh voting row, then its pages. */
  function Construct(s: Store, d: VotingData, author: UserId): Store
    requires d.pages.Some?
  {
    AddPages(AddVotingRow(s, NewVoting(d, author)), s.nextVoting, d.pages.value)
  }

  /**
   * `VotingSerializer.update`: overwrite the scalar fields present, delete
   * every page of the voting (cascading), then rebuild from the payload; a
   * payload without `pages` rebuilds nothing.
   */
  function Replace(s: Store, v: Id, d: VotingData): Store
    requires v in s.votings
  {
    var s1 := s.(votings := s.votings[v := Overwrite(s.votings[v], d)]);
    AddPages(DeletePages(s1, v), v, d.pages.GetOr([]))
  }

  // ---------------------------------------------------------------------
  // Representation: the nested response body, children in insertion order.

  datatype ChoiceRep = ChoiceRep(id: Id, name: string)

  datatype QuestionRep = QuestionRep(id: Id, title: string, qtype: string, choices: seq<ChoiceRep>)

  datatype PageRep = PageRep(id: Id, order: int, title: string, questions: seq<QuestionRep>)

  datatype VotingRep = VotingRep(
    id: Id, title: string, description: string, author: UserId, isSubmit: bool,
    questionAnswerPairs: string, hiddenPages: string, pages: seq<PageRep>)

  function EncodeChoices(s: Store, q: Id): seq<ChoiceRep> {
    var ids := ChoicesOf(s, q);
    seq(|ids|, i requires 0 <= i < |ids| => ChoiceRep(ids[i], s.choices[ids[i]].name))
  }

  function EncodeQuestion(s: Store, q: Id): QuestionRep
    requires q in s.questions
  {
    var row := s.questions[q];
    QuestionRep(q, row.title, row.qtype, EncodeChoices(s, q))
  }

  function EncodeQuestions(s: Store, p: Id): seq<QuestionRep> {
    var ids := QuestionsOf(s, p);
    seq(|ids|, i requires 0 <= i < |ids| => EncodeQuestion(s, ids[i]))
  }

  function EncodePage(s: Store, p: Id): PageRep
    requires p in s.pages
  {
    var row := s.pages[p];
    PageRep(p, row.order, row.title, EncodeQuestions(s, p))
  }

  function EncodePages(s: Store, v: Id): seq<PageRep> {
    var ids := PagesOf(s, v);
    seq(|ids|, i requires 0 <= i < |ids| => EncodePage(s, ids[i]))
  }

  function Encode(s: Store, v: Id): VotingRep
    requires v in s.votings
  {
    var row := s.votings[v];
    VotingRep(v, row.title, row.description, row.author, row.isSubmit,
              row.questionAnswerPairs, row.hiddenPages, EncodePages(s, v))
  }

  // ---------------------------------------------------------------------
  // Shapes: a tree with the ids forgotten, and the tree a payload asks for.

  datatype ChoiceTree = ChoiceTree(name: string)

  datatype QuestionTree = QuestionTree(title: string, qtype: string, choices: seq<ChoiceTree>)

  datatype PageTree = PageTree(title: string, order: int, questions: seq<QuestionTree>)

  function StripChoices(cs: seq<ChoiceRep>): seq<ChoiceTree> {
    seq(|cs|, i requires 0 <= i < |cs| => ChoiceTree(cs[i].name))
  }

  function StripQuestions(qs: seq<QuestionRep>): seq<QuestionTree> {
    seq(|qs|, i requires 0 <= i < |qs| => QuestionTree(qs[i].title, qs[i].qtype, StripChoices(qs[i].choices)))
  }

  function StripPages(ps: seq<PageRep>): seq<PageTree> {
    seq(|ps|, i requires 0 <= i < |ps| => PageTree(ps[i].title, ps[i].order, StripQuestions(ps[i].questions)))
  }

  /** The choice a payload entry describes; an absent name reads as blank. */
  function ChoiceShapes(cs: seq<ChoiceInput>): seq<ChoiceTree> {
    seq(|cs|, i requires 0 <= i < |cs| => ChoiceTree(cs[i].name.GetOr("")))
  }

  /** The question a payload entry describes: type "checkbox" and no choices unless given. */
  function QuestionShape(q: QuestionInput): QuestionTree {
    QuestionTree(q.title.GetOr(""), q.qtype.GetOr("checkbox"), ChoiceShapes(q.choices.GetOr([])))
  }

  function QuestionShapes(qs: seq<QuestionInput>): seq<QuestionTree> {
    seq(|qs|, i requires 0 <= i < |qs| => QuestionShape(qs[i]))
  }

  /** The page a payload entry describes: position 0 and no questions unless given. */
  function PageShape(p: PageInput): PageTree {
    PageTree(p.title.GetOr(""), p.order.GetOr(0), QuestionShapes(p.questions.GetOr([])))
  }

  function PageShapes(ps: seq<PageInput>): seq<PageTree> {
    seq(|ps|, i requires 0 <= i < |ps| => PageShape(ps[i]))
  }
}
