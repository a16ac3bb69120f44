/** The demo's three Search handlers: client-side fruit filtering, user
    filtering on label or e-mail, and a simulated asynchronous fruit search. */
module SearchDemo {
  import opened Text
  import Seqs

  const AllFruits: seq<string> := [
    "Apple", "Apricot", "Avocado", "Banana", "Blackberry", "Blueberry",
    "Cherry", "Coconut", "Cranberry", "Date", "Dragon Fruit", "Elderberry",
    "Fig", "Grape", "Grapefruit", "Guava", "Honeydew", "Kiwi", "Lemon",
    "Lime", "Lychee", "Mango", "Melon", "Nectarine", "Orange", "Papaya",
    "Passion Fruit", "Peach", "Pear", "Pineapple", "Plum", "Pomegranate",
    "Raspberry", "Strawberry", "Tangerine", "Watermelon"]

  /** A user option; `caption` is the `label` field. */
  datatype User = User(value: string, caption: string, email: string)

  const Users: seq<User> := [
    User("1", "Alice Johnson", "alice@example.com"),
    User("2", "Bob Smith", "bob@example.com"),
    User("3", "Carol Williams", "carol@example.com"),
    User("4", "David Brown", "david@example.com"),
    User("5", "Eve Davis", "eve@example.com")]

  /** `fruit.toLowerCase().includes(value.toLowerCase())`, on the untrimmed value. */
  predicate FruitMatches(fruit: string, value: string) {
    Contains(Lower(fruit), Lower(value))
  }

  /** `handleFruitSearch` over the fruit list `fruits` (the page passes
      `AllFruits`): nothing for a blank query, else the matching fruits. */
  function FruitSearch(fruits: seq<string>, value: string): (r: seq<string>)
    ensures Trim(value) == "" ==> r == []
    ensures Trim(value) != "" ==> forall f :: f in r <==> f in fruits && FruitMatches(f, value)
  {
    if Trim(value) == "" then [] else Seqs.Filter(fruits, f => FruitMatches(f, value))
  }

  /** The fruit results keep the order of the fruit list. */
  lemma FruitSearchOrdered(fruits: seq<string>, value: string)
    ensures Seqs.IsSubsequence(FruitSearch(fruits, value), fruits)
  {
    if Trim(value) != "" {
      Seqs.FilterIsSubsequence(fruits, f => FruitMatches(f, value));
    }
  }

  /** A user matches iff the lowered label or the lowered e-mail includes the lowered query. */
  predicate UserMatches(u: User, value: string) {
    Contains(Lower(u.caption), Lower(value)) || Contains(Lower(u.email), Lower(value))
  }

  /** `handleUserSearch` over the user list `users` (the page passes `Users`):
      every user for a blank query, else the matching ones. */
  function UserSearch(users: seq<User>, value: string): (r: seq<User>)
    ensures Trim(value) == "" ==> r == users
    ensures Trim(value) != "" ==> forall u :: u in r <==> u in users && UserMatches(u, value)
  {
    if Trim(value) == "" then users else Seqs.Filter(users, u => UserMatches(u, value))
  }

  /** What the simulated request answers: the first five matching fruits. */
  function AsyncAnswer(fruits: seq<string>, value: string): seq<string>
  {
    Seqs.Take(Seqs.Filter(fruits, f => FruitMatches(f, value)), 5)
  }

  /** The simulated search answers with the first (at most) five results of
      the same filter the client-side demo uses. */
  lemma AsyncIsFirstFiveFruits(fruits: seq<string>, value: string)
    ensures Expected(fruits, value) == Seqs.Take(FruitSearch(fruits, value), 5)
    ensures |Expected(fruits, value)| <= 5
    ensures forall i :: 0 <= i < |Expected(fruits, value)| ==>
      Expected(fruits, value)[i] == FruitSearch(fruits, value)[i]
  {
  }

  /** The result list a query should show once its answer is in. */
  function Expected(fruits: seq<string>, value: string): seq<string> {
    if Trim(value) == "" then [] else AsyncAnswer(fruits, value)
  }

  /** Blank queries: no fruits, every user, no asynchronous results. */
  lemma BlankQueries(fruits: seq<string>, users: seq<User>, value: string)
    requires IsBlank(value)
    ensures FruitSearch(fruits, value) == [] && UserSearch(users, value) == users
    ensures Expected(fruits, value) == []
  {
    TrimEmptyIffBlank(value);
  }

  /** The asynchronous demo's signals, plus the queries whose 500 ms timers are
      still pending, oldest first. */
  datatype AsyncState = AsyncState(query: string, results: seq<string>, loading: bool, pending: seq<string>)

  const AsyncInitial := AsyncState("", [], false, [])

  /** `handleAsyncSearch(value)`: a blank value clears the results at once;
      any other starts loading and schedules a timer. */
  function AsyncInputAsWritten(s: AsyncState, value: string): (r: AsyncState)
    ensures r.query == value
    ensures Trim(value) == "" ==> r.results == [] && r.loading == s.loading && r.pending == s.pending
    ensures Trim(value) != "" ==> r.results == s.results && r.loading && r.pending == s.pending + [value]
  {
    if Trim(value) == "" then s.(query := value, results := [])
    else s.(query := value, loading := true, pending := s.pending + [value])
  }

  /** The oldest timer firing, as written: its answer replaces the results and
      loading stops, whatever the input now holds. */
  function AsyncFireAsWritten(fruits: seq<string>, s: AsyncState): (r: AsyncState)
    requires s.pending != []
    ensures r.results == AsyncAnswer(fruits, s.pending[0]) && !r.loading && r.pending == s.pending[1..]
  {
    s.(results := AsyncAnswer(fruits, s.pending[0]), loading := false, pending := s.pending[1..])
  }

  /** Type "a" and clear the field before the timer fires: the spinner stays
      on over the blank input with the timer for "a" still pending, and once it
      fires the list shows fruits (Apple among them) and loading has stopped. */
  lemma StaleAnswerAfterClear(fruits: seq<string>)
    requires "Apple" in fruits
    ensures var s := AsyncFireAsWritten(fruits, AsyncInputAsWritten(AsyncInputAsWritten(AsyncInitial, "a"), ""));
      && s.query == "" && !s.loading && s.results != Expected(fruits, s.query)
    ensures var s := AsyncInputAsWritten(AsyncInputAsWritten(AsyncInitial, "a"), "");
      && s.query == "" && s.loading && s.pending == ["a"]
  {
    var s1 := AsyncInputAsWritten(AsyncInitial, "a");
    assert Trim("a") == "a";
    var s2 := AsyncInputAsWritten(s1, "");
    var answer := Seqs.Filter(fruits, f => FruitMatches(f, "a"));
    assert FruitMatches("Apple", "a") by {
      assert Lower("Apple")[0..1] == "a";
      assert OccursAt(Lower("Apple"), Lower("a"), 0);
    }
    assert "Apple" in answer;
    assert |AsyncAnswer(fruits, "a")| > 0;
  }

  /** The page's own fruit list exhibits the stale answer. */
  lemma StaleAnswerOnThePage()
    ensures var s := AsyncFireAsWritten(AllFruits, AsyncInputAsWritten(AsyncInputAsWritten(AsyncInitial, "a"), ""));
      s.results != Expected(AllFruits, s.query)
  {
    StaleAnswerAfterClear(AllFruits);
  }

  /** The evidently intended handling: an answer is used only while the input
      still holds the query it was asked for, and clearing stops loading. */
  function AsyncInput(s: AsyncState, value: string): (r: AsyncState)
    ensures r.query == value
    ensures Trim(value) == "" ==> r.results == [] && !r.loading && r.pending == s.pending
    ensures Trim(value) != "" ==> r.loading && r.pending == s.pending + [value]
  {
    if Trim(value) == "" then s.(query := value, results := [], loading := false)
    else s.(query := value, loading := true, pending := s.pending + [value])
  }

  function AsyncFire(fruits: seq<string>, s: AsyncState): (r: AsyncState)
    requires s.pending != []
    ensures r.pending == s.pending[1..]
    ensures s.pending[0] == s.query ==> r.results == AsyncAnswer(fruits, s.query) && !r.loading
    ensures s.pending[0] != s.query ==> r.results == s.results && r.loading == s.loading
  {
    if s.pending[0] == s.query then s.(results := AsyncAnswer(fruits, s.query), loading := false, pending := s.pending[1..])
    else s.(pending := s.pending[1..])
  }

  /** Corrected demo invariant: when not loading, the list shows exactly the
      answer for the current input; while loading, that input's timer is pending.
      Only non-blank queries are ever scheduled. */
  ghost predicate AsyncConsistent(fruits: seq<string>, s: AsyncState) {
    && (forall i :: 0 <= i < |s.pending| ==> Trim(s.pending[i]) != "")
    && (!s.loading ==> s.results == Expected(fruits, s.query))
    && (s.loading ==> s.query in s.pending && Trim(s.query) != "")
  }

  datatype AsyncEvent = Typed(value: string) | TimerFired

  function AsyncStep(fruits: seq<string>, s: AsyncState, e: AsyncEvent): AsyncState {
    match e
    case Typed(v) => AsyncInput(s, v)
    case TimerFired => if s.pending == [] then s else AsyncFire(fruits, s)
  }

  function AsyncRun(fruits: seq<string>, s: AsyncState, events: seq<AsyncEvent>): AsyncState
    decreases |events|
  {
    if events == [] then s else AsyncRun(fruits, AsyncStep(fruits, s, events[0]), events[1..])
  }

  lemma AsyncStepConsistent(fruits: seq<string>, s: AsyncState, e: AsyncEvent)
    requires AsyncConsistent(fruits, s)
    ensures AsyncConsistent(fruits, AsyncStep(fruits, s, e))
  {
    match e
    case Typed(v) =>
    case TimerFired =>
      if s.pending != [] && s.pending[0] != s.query && s.loading {
        assert s.query in s.pending[1..];
      }
  }

  /** Every run of keystrokes and timers from the start keeps the results
      consistent with the input. */
  lemma {:induction false} AsyncRunConsistent(fruits: seq<string>, s: AsyncState, events: seq<AsyncEvent>)
    requires AsyncConsistent(fruits, s)
    ensures AsyncConsistent(fruits, AsyncRun(fruits, s, events))
    decreases |events|
  {
    if events != [] {
      AsyncStepConsistent(fruits, s, events[0]);
      AsyncRunConsistent(fruits, AsyncStep(fruits, s, events[0]), events[1..]);
    }
  }

  lemma AsyncInitialConsistent(fruits: seq<string>)
    ensures AsyncConsistent(fruits, AsyncInitial)
  {
  }
}
