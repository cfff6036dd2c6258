/** The page state around the engine: submitting a scenario shows its result and
    records it in a bounded, newest-first history; loading a scenario from the
    history only replaces the scenario the form is filled from. Storage, toasts,
    scrolling and the artificial delay are left out; the timestamp is a parameter. */
module History {
  import opened Wrappers
  import opened Formulas

  datatype HistoryItem = HistoryItem(scenario: Scenario, calculation: CalculationResult, timestamp: string)

  datatype Results = Results(scenario: Scenario, calculation: CalculationResult)

  datatype Page = Page(results: Option<Results>, savedScenario: Option<Scenario>, history: seq<HistoryItem>)

  /** How many calculations the history keeps. */
  const HistoryLimit: nat := 10

  /** `s.slice(0, end)`: the first `end` elements, or all of them if there are fewer. */
  function Prefix<T>(s: seq<T>, end: nat): (t: seq<T>)
    ensures |t| == if end < |s| then end else |s|
    ensures forall i :: 0 <= i < |t| ==> t[i] == s[i]
  {
    if end < |s| then s[..end] else s
  }

  /** `[item, ...previous].slice(0, 10)`: the new item first, then the previous
      entries in their order, dropping only what falls beyond the tenth place. */
  function AddToHistory(item: HistoryItem, previous: seq<HistoryItem>): (h: seq<HistoryItem>)
    ensures |h| == if |previous| < HistoryLimit then |previous| + 1 else HistoryLimit
    ensures h[0] == item
    ensures forall i :: 1 <= i < |h| ==> h[i] == previous[i - 1]
    ensures |previous| < HistoryLimit ==> h == [item] + previous
  {
    Prefix([item] + previous, HistoryLimit)
  }

  /** Submitting a scenario: the shown result and the new history entry hold the
      same calculation of that very scenario; the saved scenario is untouched. */
  function HandleCalculate(page: Page, data: Scenario, timestamp: string): (next: Page)
    requires data.apr >= 0.0
    ensures next.results == Some(Results(data, CalculateScenario(data)))
    ensures |next.history| >= 1
    ensures next.history[0] == HistoryItem(data, next.results.value.calculation, timestamp)
    ensures next.history[1..] == Prefix(page.history, HistoryLimit - 1)
    ensures next.savedScenario == page.savedScenario
  {
    var calculation := CalculateScenario(data);
    var newHistoryItem := HistoryItem(data, calculation, timestamp);
    page.(results := Some(Results(data, calculation)),
          history := AddToHistory(newHistoryItem, page.history))
  }

  /** Loading a scenario from the history changes only the saved scenario. */
  function HandleLoadScenario(page: Page, scenario: Scenario): (next: Page)
    ensures next.savedScenario == Some(scenario)
    ensures next.results == page.results && next.history == page.history
  {
    page.(savedScenario := Some(scenario))
  }

  // ---------------------------------------------------------------------------
  // Runs of user actions
  // ---------------------------------------------------------------------------

  datatype Event = Calculate(data: Scenario, timestamp: string) | Load(scenario: Scenario)

  predicate Computable(events: seq<Event>)
  {
    forall i :: 0 <= i < |events| ==> (events[i].Calculate? ==> events[i].data.apr >= 0.0)
  }

  /** The page after the events, in order. */
  function Run(page: Page, events: seq<Event>): Page
    requires Computable(events)
  {
    if |events| == 0 then page
    else
      var before := Run(page, events[..|events| - 1]);
      match events[|events| - 1]
      case Calculate(data, timestamp) => HandleCalculate(before, data, timestamp)
      case Load(scenario) => HandleLoadScenario(before, scenario)
  }

  /** The history entries the events produce, oldest first. */
  function NewItems(events: seq<Event>): (items: seq<HistoryItem>)
    requires Computable(events)
  {
    if |events| == 0 then []
    else
      var earlier := NewItems(events[..|events| - 1]);
      match events[|events| - 1]
      case Calculate(data, timestamp) => earlier + [HistoryItem(data, CalculateScenario(data), timestamp)]
      case Load(_) => earlier
  }

  /** `s` back to front. */
  function Reverse<T>(s: seq<T>): (r: seq<T>)
    ensures |r| == |s|
    ensures forall i :: 0 <= i < |s| ==> r[i] == s[|s| - 1 - i]
  {
    if |s| == 0 then [] else [s[|s| - 1]] + Reverse(s[..|s| - 1])
  }

  /** Adding to a history already cut to ten is the same as adding first and
      cutting afterwards. */
  lemma AddToPrefix(item: HistoryItem, s: seq<HistoryItem>)
    ensures AddToHistory(item, Prefix(s, HistoryLimit)) == Prefix([item] + s, HistoryLimit)
  {
    var a := AddToHistory(item, Prefix(s, HistoryLimit));
    var b := Prefix([item] + s, HistoryLimit);
    assert |a| == |b|;
    forall i | 0 <= i < |a|
      ensures a[i] == b[i]
    {
      if i > 0 {
        assert a[i] == Prefix(s, HistoryLimit)[i - 1];
      }
    }
  }

  /** After any run of actions the history holds the newest calculations, newest
      first, followed by what was there before, cut at ten entries; loading
      scenarios never changes it. */
  lemma {:induction false} RunKeepsNewestTen(page: Page, events: seq<Event>)
    requires Computable(events)
    ensures NewItems(events) == [] ==> Run(page, events).history == page.history
    ensures NewItems(events) != [] ==>
      Run(page, events).history == Prefix(Reverse(NewItems(events)) + page.history, HistoryLimit)
  {
    if |events| > 0 {
      var init := events[..|events| - 1];
      assert Computable(init);
      RunKeepsNewestTen(page, init);
      match events[|events| - 1]
      case Calculate(data, timestamp) =>
        var item := HistoryItem(data, CalculateScenario(data), timestamp);
        assert NewItems(events) == NewItems(init) + [item];
        ReverseSnoc(NewItems(init), item);
        HistoryStep(item, Reverse(NewItems(init)), page.history, Run(page, init).history);
      case Load(_) =>
    }
  }

  /** Reversing after appending puts the new element first. */
  lemma ReverseSnoc<T>(s: seq<T>, x: T)
    ensures Reverse(s + [x]) == [x] + Reverse(s)
  {
    assert (s + [x])[..|s|] == s;
  }

  /** One calculation in `RunKeepsNewestTen`: adding an item to the history the
      earlier events left gives the cut of the longer list. */
  lemma HistoryStep(item: HistoryItem, newer: seq<HistoryItem>, original: seq<HistoryItem>,
                    before: seq<HistoryItem>)
    requires newer == [] ==> before == original
    requires newer != [] ==> before == Prefix(newer + original, HistoryLimit)
    ensures AddToHistory(item, before) == Prefix(([item] + newer) + original, HistoryLimit)
  {
    assert ([item] + newer) + original == [item] + (newer + original);
    if newer != [] {
      AddToPrefix(item, newer + original);
    }
  }

  /** The history never grows beyond ten entries once it starts within the limit. */
  lemma RunKeepsHistoryBounded(page: Page, events: seq<Event>)
    requires Computable(events)
    requires |page.history| <= HistoryLimit
    ensures |Run(page, events).history| <= HistoryLimit
  {
    RunKeepsNewestTen(page, events);
    if NewItems(events) != [] {
      assert |Prefix(Reverse(NewItems(events)) + page.history, HistoryLimit)| <= HistoryLimit;
    }
  }
}
