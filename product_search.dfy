/** The product search screen: it cleans the user's search term, builds the LIKE pattern of
    the name query, lets the user pick one of the matching products, and offers to search
    again when nothing was picked. Characters are modelled as ASCII. */
module ProductSearch {
  import opened Objects

  // ---------------------------------------------------------------------------------------
  // Cleaning the search term: lower-case it, drop every character outside the allowed set,
  // then trim it

  predicate IsUpper(c: char) { 'A' <= c <= 'Z' }

  /** ASCII lower-casing of one character. */
  function ToLowerChar(c: char): (r: char)
    ensures !IsUpper(r)
    ensures IsUpper(c) ==> 'a' <= r <= 'z' && r as int - c as int == 'a' as int - 'A' as int
    ensures !IsUpper(c) ==> r == c
  {
    if IsUpper(c) then (c as int - 'A' as int + 'a' as int) as char else c
  }

  function ToLower(s: string): (r: string)
    ensures |r| == |s|
    ensures forall i :: 0 <= i < |s| ==> r[i] == ToLowerChar(s[i])
  {
    seq(|s|, i requires 0 <= i < |s| => ToLowerChar(s[i]))
  }

  /** The characters the search term may keep: a-z, 0-9, '_', '-', space, '#', '(' and ')'. */
  predicate Allowed(c: char)
  {
    ('a' <= c <= 'z') || ('0' <= c <= '9') || c == '_' || c == '-' || c == ' ' || c == '#' || c == '(' || c == ')'
  }

  predicate AllAllowed(s: string)
  {
    forall i :: 0 <= i < |s| ==> Allowed(s[i])
  }

  /** Deletes every character that is not Allowed, keeping the others in order. */
  function RemoveDisallowed(s: string): (r: string)
    ensures AllAllowed(r)
    ensures |r| <= |s|
    ensures AllAllowed(s) ==> r == s
  {
    if s == [] then []
    else if Allowed(s[0]) then [s[0]] + RemoveDisallowed(s[1..])
    else RemoveDisallowed(s[1..])
  }

  /** RemoveDisallowed keeps exactly the allowed characters of its input. */
  lemma {:induction false} RemoveDisallowedKeepsAllowed(s: string, c: char)
    ensures c in RemoveDisallowed(s) <==> c in s && Allowed(c)
  {
    if s != [] {
      RemoveDisallowedKeepsAllowed(s[1..], c);
      assert s == [s[0]] + s[1..];
    }
  }

  /** RemoveDisallowed works character by character: a single character is kept exactly when
      it is Allowed ... */
  lemma RemoveDisallowedChar(c: char)
    ensures RemoveDisallowed([c]) == if Allowed(c) then [c] else []
  {
    assert [c][1..] == [];
  }

  /** ... and the result for a concatenation is the concatenation of the results, so the kept
      characters keep their order and their number. */
  lemma {:induction false} RemoveDisallowedConcat(a: string, b: string)
    ensures RemoveDisallowed(a + b) == RemoveDisallowed(a) + RemoveDisallowed(b)
  {
    if a == [] {
      assert a + b == b;
    } else {
      assert (a + b)[1..] == a[1..] + b;
      RemoveDisallowedConcat(a[1..], b);
    }
  }

  /** Strips the leading characters at or below ' ', as Java's String.trim does. */
  function TrimStart(s: string): (r: string)
    ensures |r| <= |s| && r == s[|s| - |r|..]
    ensures forall i :: 0 <= i < |s| - |r| ==> s[i] <= ' '
    ensures r != [] ==> r[0] > ' '
  {
    if s != [] && s[0] <= ' ' then TrimStart(s[1..]) else s
  }

  /** Strips the trailing characters at or below ' '. */
  function TrimEnd(s: string): (r: string)
    ensures |r| <= |s| && r == s[..|r|]
    ensures forall i :: |r| <= i < |s| ==> s[i] <= ' '
    ensures r != [] ==> r[|r| - 1] > ' '
  {
    if s != [] && s[|s| - 1] <= ' ' then TrimEnd(s[..|s| - 1]) else s
  }

  /** Java's String.trim: the longest middle part of `s` that starts and ends above ' '. */
  function Trim(s: string): (r: string)
    ensures AllAllowed(s) ==> AllAllowed(r)
    ensures r != [] ==> r[0] > ' ' && r[|r| - 1] > ' '
    ensures (s == [] || (s[0] > ' ' && s[|s| - 1] > ' ')) ==> r == s
  {
    TrimEnd(TrimStart(s))
  }

  /** The search term that search() goes on with. */
  function Sanitize(input: string): (r: string)
    ensures AllAllowed(r)
    ensures r != [] ==> r[0] != ' ' && r[|r| - 1] != ' '
  {
    Trim(RemoveDisallowed(ToLower(input)))
  }

  lemma ToLowerAllowed(s: string)
    requires AllAllowed(s)
    ensures ToLower(s) == s
  {
    assert forall i :: 0 <= i < |s| ==> ToLower(s)[i] == s[i];
  }

  /** Cleaning a term that is already clean changes nothing. */
  lemma SanitizeIdempotent(input: string)
    ensures Sanitize(Sanitize(input)) == Sanitize(input)
  {
    var t := Sanitize(input);
    ToLowerAllowed(t);
    assert RemoveDisallowed(ToLower(t)) == t;
  }

  // ---------------------------------------------------------------------------------------
  // The term check and the LIKE pattern

  /** The shortest term that is sent to the database. */
  const MinTermLength: nat := 3

  /** search() rejects an answer whose cleaned term is shorter than MinTermLength. */
  predicate TooShort(input: string)
  {
    |Sanitize(input)| < MinTermLength
  }

  /** Cleaning never lengthens an answer, so an answer of fewer than MinTermLength characters
      is always refused. */
  lemma ShortAnswerIsTooShort(input: string)
    requires |input| < MinTermLength
    ensures TooShort(input)
  {
    var d := RemoveDisallowed(ToLower(input));
    assert |TrimStart(d)| <= |d| <= |input|;
    assert Sanitize(input) == TrimEnd(TrimStart(d));
  }

  /** search() re-prompts until a cleaned term has at least three characters. `inputs` are
      the user's answers to the prompt, in order; None means they ran out first. */
  function SearchTerm(inputs: seq<string>): (r: Option<string>)
    ensures r.Some? ==> |r.value| >= MinTermLength && AllAllowed(r.value)
  {
    if inputs == [] then None
    else if TooShort(inputs[0]) then SearchTerm(inputs[1..])
    else Some(Sanitize(inputs[0]))
  }

  /** No term is produced only when every answer is too short ... */
  lemma {:induction false} NoTermOnlyIfAllTooShort(inputs: seq<string>)
    ensures SearchTerm(inputs).None? ==> forall i :: 0 <= i < |inputs| ==> TooShort(inputs[i])
  {
    if inputs != [] && TooShort(inputs[0]) {
      var rest := inputs[1..];
      NoTermOnlyIfAllTooShort(rest);
      if SearchTerm(inputs).None? {
        assert SearchTerm(rest).None?;
        forall i | 1 <= i < |inputs|
          ensures TooShort(inputs[i])
        {
          assert inputs[i] == rest[i - 1];
        }
      }
    }
  }

  /** ... and when every answer is too short, no term is produced. */
  lemma {:induction false} AllTooShortGivesNoTerm(inputs: seq<string>)
    requires forall i :: 0 <= i < |inputs| ==> TooShort(inputs[i])
    ensures SearchTerm(inputs).None?
  {
    if inputs != [] {
      assert forall i :: 1 <= i < |inputs| ==> inputs[i] == inputs[1..][i - 1];
      AllTooShortGivesNoTerm(inputs[1..]);
    }
  }

  /** The answers before the accepted one were all too short, and the accepted one is the first
      that is long enough. */
  lemma {:induction false} SearchTermIsFirstLongEnough(inputs: seq<string>, k: nat)
    requires k < |inputs| && !TooShort(inputs[k])
    requires forall j :: 0 <= j < k ==> TooShort(inputs[j])
    ensures SearchTerm(inputs) == Some(Sanitize(inputs[k]))
  {
    if k > 0 {
      var rest := inputs[1..];
      assert TooShort(inputs[0]);
      assert rest[k - 1] == inputs[k];
      forall j | 0 <= j < k - 1
        ensures TooShort(rest[j])
      {
        assert rest[j] == inputs[j + 1];
      }
      SearchTermIsFirstLongEnough(rest, k - 1);
    }
  }

  /** The parameter bound to `lower(product_name) like ?`. */
  function LikePattern(term: string): (p: string)
    ensures |p| == |term| + 2
    ensures p[0] == '%' && p[|p| - 1] == '%'
    ensures p[1..|p| - 1] == term
  {
    "%" + term + "%"
  }

  /** The LIKE pattern the name search queries with, if it gets that far: it always wraps a
      clean term of at least MinTermLength characters in '%'. */
  function SearchPattern(inputs: seq<string>): (r: Option<string>)
    ensures r.Some? ==>
      var p := r.value;
      |p| >= MinTermLength + 2 && p[0] == '%' && p[|p| - 1] == '%' &&
      AllAllowed(p[1..|p| - 1]) && |p[1..|p| - 1]| >= MinTermLength
    ensures r.None? <==> SearchTerm(inputs).None?
  {
    match SearchTerm(inputs)
    case None => None
    case Some(t) => Some(LikePattern(t))
  }

  // ---------------------------------------------------------------------------------------
  // Picking a product

  /** The menu's answer must be one of the listed rows. */
  predicate PickInRange(rows: seq<Product>, pick: nat)
  {
    rows != [] ==> pick < |rows|
  }

  /** chosenProduct after showProducts: the picked row when there is one, else unchanged. */
  function Chosen(previous: Option<Product>, rows: seq<Product>, pick: nat): (r: Option<Product>)
    requires PickInRange(rows, pick)
    ensures rows == [] ==> r == previous
    ensures rows != [] ==> r.Some? && r.value in rows
  {
    if rows == [] then previous else Some(rows[pick])
  }

  /** On a fresh screen a product is chosen exactly when a row matched. */
  lemma ChosenIffRows(rows: seq<Product>, pick: nat)
    requires PickInRange(rows, pick)
    ensures Chosen(None, rows, pick).Some? <==> rows != []
  {
  }

  // ---------------------------------------------------------------------------------------
  // The screen as a whole

  /** The two search options of the first menu, each with the rows its query returns. */
  datatype SearchOption =
    | BrowseByCategory(rows: seq<Product>)
    | SearchByName(inputs: seq<string>, rows: seq<Product>)

  /** One visit of run(): the option chosen (None when the menu was left), the product picked
      from the results, and the answer to "Search again?". */
  datatype Round = Round(option: Option<SearchOption>, pick: nat, searchAgain: bool)

  predicate ValidRound(r: Round)
  {
    r.option.Some? ==> PickInRange(r.option.value.rows, r.pick)
  }

  predicate ValidRounds(rounds: seq<Round>)
  {
    forall k :: 0 <= k < |rounds| ==> ValidRound(rounds[k])
  }

  /** The screen's state: the chosen product and the LIKE patterns queried so far. */
  datatype SearchState = SearchState(chosen: Option<Product>, queries: seq<string>)

  /** What one chosen option does to the state. */
  function AfterOption(s: SearchState, o: SearchOption, pick: nat): (r: SearchState)
    requires PickInRange(o.rows, pick)
    ensures r.chosen != s.chosen ==> r.chosen.Some? && r.chosen.value in o.rows
    ensures o.BrowseByCategory? ==> r.queries == s.queries
  {
    match o
    case BrowseByCategory(rows) => SearchState(Chosen(s.chosen, rows, pick), s.queries)
    case SearchByName(inputs, rows) =>
      match SearchPattern(inputs)
      case None => s
      case Some(p) => SearchState(Chosen(s.chosen, rows, pick), s.queries + [p])
  }

  /** The state after the option of one round ran (unchanged when the menu was left). */
  function AfterRound(s: SearchState, r: Round): (after: SearchState)
    requires ValidRound(r)
    ensures r.option.None? ==> after == s
  {
    if r.option.Some? then AfterOption(s, r.option.value, r.pick) else s
  }

  /** Whether run() asks "Search again?" after a round: an option ran and nothing is chosen. */
  predicate OffersSearchAgain(r: Round, after: SearchState)
  {
    r.option.Some? && after.chosen.None?
  }

  /** The state at the end of run(), and how many times it asked "Search again?". */
  datatype RunOutcome = RunOutcome(state: SearchState, offers: nat)

  /** run() over the user's rounds; it recurses only after an offer that was accepted. */
  function RunResult(s: SearchState, rounds: seq<Round>): (r: RunOutcome)
    requires ValidRounds(rounds)
    ensures r.offers <= |rounds|
    ensures rounds == [] ==> r == RunOutcome(s, 0)
    decreases |rounds|
  {
    if rounds == [] then RunOutcome(s, 0)
    else
      var after := AfterRound(s, rounds[0]);
      if OffersSearchAgain(rounds[0], after) then
        if rounds[0].searchAgain then
          var rest := RunResult(after, rounds[1..]);
          RunOutcome(rest.state, rest.offers + 1)
        else RunOutcome(after, 1)
      else RunOutcome(after, 0)
  }

  /** run() asks "Search again?" exactly when the first option it ran left nothing chosen; when
      it does not ask, its state is the one that option left. */
  lemma RunOffersIffNothingChosen(s: SearchState, rounds: seq<Round>)
    requires ValidRounds(rounds) && rounds != []
    ensures var after := AfterRound(s, rounds[0]);
      (RunResult(s, rounds).offers > 0 <==> rounds[0].option.Some? && after.chosen.None?) &&
      (RunResult(s, rounds).offers == 0 ==> RunResult(s, rounds).state == after)
  {
  }

  /** The rows of every option chosen in `rounds`, in order. */
  function AllRows(rounds: seq<Round>): seq<Product>
  {
    if rounds == [] then []
    else (if rounds[0].option.Some? then rounds[0].option.value.rows else []) + AllRows(rounds[1..])
  }

  /** A product picked by run() is one of the rows its queries returned. */
  lemma {:induction false} RunChoosesFromRows(s: SearchState, rounds: seq<Round>)
    requires ValidRounds(rounds)
    ensures var c := RunResult(s, rounds).state.chosen;
      c == s.chosen || (c.Some? && c.value in AllRows(rounds))
    decreases |rounds|
  {
    if rounds != [] {
      var after := AfterRound(s, rounds[0]);
      if OffersSearchAgain(rounds[0], after) && rounds[0].searchAgain {
        assert ValidRounds(rounds[1..]);
        RunChoosesFromRows(after, rounds[1..]);
      }
    }
  }

  class ProductSearchInterface {
    /** The product the user picked; None stands for Java's null. */
    var chosenProduct: Option<Product>
    /** The LIKE patterns queried by this screen, oldest first. */
    ghost var queries: seq<string>

    ghost function State(): SearchState
      reads this
    {
      SearchState(chosenProduct, queries)
    }

    constructor ()
      ensures chosenProduct == None && queries == []
    {
      chosenProduct := None;
      queries := [];
    }

    /** Lists the result rows in a menu and, when there is at least one, stores the product the
        user picks from it. */
    method ShowProducts(rows: seq<Product>, pick: nat) returns (menu: seq<Product>)
      requires PickInRange(rows, pick)
      modifies this`chosenProduct
      ensures menu == rows
      ensures chosenProduct == Chosen(old(chosenProduct), rows, pick)
    {
      menu := [];
      var foundProducts := false;
      var i := 0;
      while i < |rows|
        invariant 0 <= i <= |rows|
        invariant menu == rows[..i]
        invariant foundProducts <==> i > 0
      {
        menu := menu + [rows[i]];
        foundProducts := true;
        i := i + 1;
      }
      if foundProducts {
        chosenProduct := Some(menu[pick]);
      }
    }

    method BrowseByCategory(rows: seq<Product>, pick: nat)
      requires PickInRange(rows, pick)
      modifies this
      ensures State() == AfterOption(old(State()), SearchOption.BrowseByCategory(rows), pick)
    {
      var _ := ShowProducts(rows, pick);
    }

    /** search(): prompts until a clean term is long enough, then queries with its pattern and
        shows the rows the query returns. */
    method Search(inputs: seq<string>, rows: seq<Product>, pick: nat)
      requires PickInRange(rows, pick)
      modifies this
      ensures SearchPattern(inputs).None? ==> chosenProduct == old(chosenProduct) && queries == old(queries)
      ensures SearchPattern(inputs).Some? ==>
        chosenProduct == Chosen(old(chosenProduct), rows, pick) && queries == old(queries) + [SearchPattern(inputs).value]
      decreases |inputs|
    {
      if inputs == [] {
        return;
      }
      var searchTerm := Sanitize(inputs[0]);
      if TooShort(inputs[0]) {
        Search(inputs[1..], rows, pick);
        return;
      }
      var pattern := LikePattern(searchTerm);
      queries := queries + [pattern];
      var _ := ShowProducts(rows, pick);
    }

    /** run(): the first menu, the chosen option, and the offer to search again when nothing
        was chosen. Returns how many times the offer was made. */
    method Run(rounds: seq<Round>) returns (offers: nat)
      requires ValidRounds(rounds)
      modifies this
      ensures State() == RunResult(old(State()), rounds).state
      ensures offers == RunResult(old(State()), rounds).offers
      decreases |rounds|
    {
      if rounds == [] {
        return 0;
      }
      var r := rounds[0];
      if r.option.Some? {
        match r.option.value {
          case BrowseByCategory(rows) => BrowseByCategory(rows, r.pick);
          case SearchByName(inputs, rows) => Search(inputs, rows, r.pick);
        }
        if chosenProduct.None? {
          if r.searchAgain {
            assert ValidRounds(rounds[1..]);
            offers := Run(rounds[1..]);
            offers := offers + 1;
          } else {
            offers := 1;
          }
          return;
        }
      }
      offers := 0;
    }
  }
}
