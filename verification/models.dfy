/**
 * The survey store: one table per model of the survey application, each a
 * map from auto-increment ids to rows holding a back-reference to the parent
 * row.  Ownership runs Voting <- Page <- Question <- Choice; a Vote references
 * a Question and a Choice.  Every foreign key deletes on cascade.
 */
module Models {
  import opened Tables

  /** Primary key of an account; accounts live outside the survey store. */
  type UserId = nat

  /** `max_length` of the titles of votings, pages and questions. */
  const TitleMax: nat := 100
  /** `max_length` of a question's type tag. */
  const TypeMax: nat := 50
  /** `max_length` of a choice's name. */
  const NameMax: nat := 150
  /** Default type tag of a question. */
  const DefaultType: string := "checkbox"
  /** Default position of a page. */
  const DefaultOrder: int := 0
  /** What a character field without a declared default holds when no value is given. */
  const BlankDefault: string := ""

  /** The errors the endpoints report, one per way a request can be refused. */
  datatype Failure =
    | NotFound      // unknown id, or a listing for somebody else
    | Invalid       // the request body fails field validation
    | NotAuthor     // the requester does not own the voting
    | EmptyVoting   // votes submitted to a voting without pages
    | OutOfScope    // a submitted vote names a question of another voting
    | SaveFailed    // the database refuses a value a view wrote without validating it

  datatype Voting = Voting(
    title: string,
    description: string,
    author: UserId,
    isSubmit: bool,
    questionAnswerPairs: string,  // opaque logic blob, stored verbatim
    hiddenPages: string)          // opaque logic blob, stored verbatim

  datatype Page = Page(voting: Id, title: string, order: int)

  datatype Question = Question(page: Id, title: string, qtype: string)

  datatype Choice = Choice(question: Id, name: string)

  datatype Vote = Vote(user: UserId, question: Id, choice: Id)

  /** All five tables, each with the counter that supplies its next id. */
  datatype Store = Store(
    votings: map<Id, Voting>, nextVoting: Id,
    pages: map<Id, Page>, nextPage: Id,
    questions: map<Id, Question>, nextQuestion: Id,
    choices: map<Id, Choice>, nextChoice: Id,
    votes: map<Id, Vote>, nextVote: Id)

  const EmptyStore := Store(map[], 0, map[], 0, map[], 0, map[], 0, map[], 0)

  // Parent references, as values to hand to `Select`.
  function PageVoting(p: Page): Id { p.voting }
  function QuestionPage(q: Question): Id { q.page }
  function ChoiceQuestion(c: Choice): Id { c.question }
  function VoteQuestion(x: Vote): Id { x.question }
  function VoteChoice(x: Vote): Id { x.choice }
  function VotingAuthor(v: Voting): Id { v.author }

  /** `voting.pages.all()`, in insertion order. */
  function PagesOf(s: Store, v: Id): seq<Id> {
    Select(s.pages, PageVoting, {v}, s.nextPage)
  }

  /** `page.questions.all()`, in insertion order. */
  function QuestionsOf(s: Store, p: Id): seq<Id> {
    Select(s.questions, QuestionPage, {p}, s.nextQuestion)
  }

  /** `question.choices.all()`, in insertion order. */
  function ChoicesOf(s: Store, q: Id): seq<Id> {
    Select(s.choices, ChoiceQuestion, {q}, s.nextChoice)
  }

  function PageSet(s: Store, v: Id): set<Id> {
    set p | p in s.pages && s.pages[p].voting == v
  }

  /** `Question.objects.filter(page__voting_id=v)`, in insertion order. */
  function QuestionsOfVoting(s: Store, v: Id): seq<Id> {
    Select(s.questions, QuestionPage, PageSet(s, v), s.nextQuestion)
  }

  // Ownership: the subtree of a voting.
  predicate PageIn(s: Store, p: Id, v: Id) {
    p in s.pages && s.pages[p].voting == v
  }

  predicate QuestionIn(s: Store, q: Id, v: Id) {
    q in s.questions && PageIn(s, s.questions[q].page, v)
  }

  predicate ChoiceIn(s: Store, c: Id, v: Id) {
    c in s.choices && QuestionIn(s, s.choices[c].question, v)
  }

  /** Every id lies below its table's counter, so the counter always yields a fresh id. */
  ghost predicate Closed(s: Store) {
    && Below(s.votings, s.nextVoting)
    && Below(s.pages, s.nextPage)
    && Below(s.questions, s.nextQuestion)
    && Below(s.choices, s.nextChoice)
    && Below(s.votes, s.nextVote)
  }

  /** Referential integrity: every foreign key points to a live row. */
  ghost predicate Linked(s: Store) {
    && (forall p :: p in s.pages ==> s.pages[p].voting in s.votings)
    && (forall q :: q in s.questions ==> s.questions[q].page in s.pages)
    && (forall c :: c in s.choices ==> s.choices[c].question in s.questions)
    && (forall x :: x in s.votes ==> s.votes[x].question in s.questions && s.votes[x].choice in s.choices)
  }

  /** The column widths of the character fields. */
  ghost predicate Bounded(s: Store) {
    && (forall v :: v in s.votings ==> |s.votings[v].title| <= TitleMax)
    && (forall p :: p in s.pages ==> |s.pages[p].title| <= TitleMax)
    && (forall q :: q in s.questions ==> |s.questions[q].title| <= TitleMax && |s.questions[q].qtype| <= TypeMax)
    && (forall c :: c in s.choices ==> |s.choices[c].name| <= NameMax)
  }

  ghost predicate Sound(s: Store) {
    Closed(s) && Linked(s)
  }

  ghost predicate WellFormed(s: Store) {
    Sound(s) && Bounded(s)
  }

  /**
   * Deletes the pages in `gone` the way the database cascades: with them go
   * their questions, those questions' choices, and every vote whose question
   * or whose choice is deleted.
   */
  function RemovePages(s: Store, gone: set<Id>): Store {
    var qs := set q | q in s.questions && s.questions[q].page in gone;
    var cs := set c | c in s.choices && s.choices[c].question in qs;
    var xs := set x | x in s.votes && (s.votes[x].question in qs || s.votes[x].choice in cs);
    s.(pages := s.pages - gone, questions := s.questions - qs,
       choices := s.choices - cs, votes := s.votes - xs)
  }

  /** `voting.pages.all().delete()`: removes exactly the subtree below `v` and the votes on it. */
  function DeletePages(s: Store, v: Id): (r: Store)
    ensures r.votings == s.votings
    ensures r.nextVoting == s.nextVoting && r.nextPage == s.nextPage && r.nextQuestion == s.nextQuestion
    ensures r.nextChoice == s.nextChoice && r.nextVote == s.nextVote
    ensures forall p :: p in r.pages <==> p in s.pages && !PageIn(s, p, v)
    ensures forall q :: q in r.questions <==> q in s.questions && !QuestionIn(s, q, v)
    ensures forall c :: c in r.choices <==> c in s.choices && !ChoiceIn(s, c, v)
    ensures forall x :: x in r.votes <==>
      x in s.votes && !QuestionIn(s, s.votes[x].question, v) && !ChoiceIn(s, s.votes[x].choice, v)
    ensures forall p :: p in r.pages ==> r.pages[p] == s.pages[p]
    ensures forall q :: q in r.questions ==> r.questions[q] == s.questions[q]
    ensures forall c :: c in r.choices ==> r.choices[c] == s.choices[c]
    ensures forall x :: x in r.votes ==> r.votes[x] == s.votes[x]
  {
    RemovePages(s, PageSet(s, v))
  }

  /** `voting.delete()`: the voting row and, by cascade, everything it owns. */
  function DeleteVotingRow(s: Store, v: Id): (r: Store)
    ensures forall w :: w in r.votings <==> w in s.votings && w != v
    ensures forall w :: w in r.votings ==> r.votings[w] == s.votings[w]
    ensures r == DeletePages(s, v).(votings := r.votings)
  {
    var r := DeletePages(s, v);
    r.(votings := r.votings - {v})
  }

  /** Deleting a voting's pages keeps the store well formed: the cascade is closed under ownership. */
  lemma DeletePagesSound(s: Store, v: Id)
    requires Sound(s)
    ensures Sound(DeletePages(s, v))
  {
    var r := DeletePages(s, v);
    forall q | q in r.questions ensures r.questions[q].page in r.pages {
      assert s.questions[q].page in s.pages;
    }
    forall c | c in r.choices ensures r.choices[c].question in r.questions {
      assert s.choices[c].question in s.questions;
    }
    forall x | x in r.votes
      ensures r.votes[x].question in r.questions && r.votes[x].choice in r.choices
    {
      assert s.votes[x].question in s.questions && s.votes[x].choice in s.choices;
    }
    NoPagesLeft(s, v);
  }

  lemma DeletePagesWellFormed(s: Store, v: Id)
    requires WellFormed(s)
    ensures WellFormed(DeletePages(s, v))
  {
    DeletePagesSound(s, v);
  }

  lemma NoPagesLeft(s: Store, v: Id)
    ensures PagesOf(DeletePages(s, v), v) == []
  {
    var r := DeletePages(s, v);
    forall k | k in r.pages ensures PageVoting(r.pages[k]) !in {v} {
      assert r.pages[k] == s.pages[k];
    }
    SelectSame(r.pages, PageVoting, {v}, r.nextPage, r.pages, PageVoting, {v}, 0);
  }

  /** Deleting a voting keeps the store well formed and removes its whole subtree. */
  lemma DeleteVotingWellFormed(s: Store, v: Id)
    requires WellFormed(s)
    ensures WellFormed(DeleteVotingRow(s, v))
  {
    DeletePagesWellFormed(s, v);
    var r := DeleteVotingRow(s, v);
    forall p | p in r.pages ensures r.pages[p].voting in r.votings {
      assert s.pages[p].voting in s.votings;
    }
  }
}
