/** The query history of a CoQuery session as a value: the list of recorded
    queries and the cursor that the previous/next buttons move. */
module QueryHistory {

  datatype History = History(entries: seq<string>, index: int)

  /** No entry is empty and no entry repeats the one just before it. */
  predicate Collapsed(entries: seq<string>) {
    (forall k :: 0 <= k < |entries| ==> entries[k] != "") &&
    (forall k :: 0 < k < |entries| ==> entries[k - 1] != entries[k])
  }

  /** The class invariant: the entries are collapsed, and the cursor is -1
      exactly when there are no entries and otherwise selects one of them. */
  predicate Valid(h: History) {
    Collapsed(h.entries) &&
    -1 <= h.index < |h.entries| &&
    (h.index == -1 <==> h.entries == [])
  }

  /** A fresh session: no entries, cursor -1. */
  function Initial(): (h: History)
    ensures Valid(h) && h.entries == [] && h.index == -1
  {
    History([], -1)
  }

  function Last(s: seq<string>): string
    requires s != []
  {
    s[|s| - 1]
  }

  /** `addToHistory(sql)`: an empty string or a repeat of the last entry is
      ignored, and anything else becomes the new last entry and is selected. */
  function Add(h: History, sql: string): (r: History)
    requires Valid(h)
    ensures Valid(r)
    ensures h.entries <= r.entries && |r.entries| <= |h.entries| + 1
    ensures sql != "" ==> r.entries != [] && Last(r.entries) == sql
    ensures r.entries == h.entries <==> sql == "" || (h.entries != [] && Last(h.entries) == sql)
    ensures r.entries == h.entries ==> r.index == h.index
    ensures r.entries != h.entries ==> r.index == |r.entries| - 1
  {
    if sql == "" then h
    else if h.entries == [] || Last(h.entries) != sql then
      History(h.entries + [sql], |h.entries|)
    else h
  }

  /** Whether the previous button has an entry to go to. */
  predicate CanGoBack(h: History) {
    h.index > 0
  }

  /** Whether the next button has an entry to go to. */
  predicate CanGoForward(h: History) {
    h.index < |h.entries| - 1
  }

  /** `showPreviousQuery`: the cursor moves one entry back, if there is one. */
  function Back(h: History): (r: History)
    requires Valid(h)
    ensures Valid(r) && r.entries == h.entries
    ensures CanGoBack(h) ==> r.index == h.index - 1
    ensures !CanGoBack(h) ==> r == h
  {
    if CanGoBack(h) then History(h.entries, h.index - 1) else h
  }

  /** `showNextQuery`: the cursor moves one entry forward, if there is one. */
  function Forward(h: History): (r: History)
    requires Valid(h)
    ensures Valid(r) && r.entries == h.entries
    ensures CanGoForward(h) ==> r.index == h.index + 1
    ensures !CanGoForward(h) ==> r == h
  {
    if CanGoForward(h) then History(h.entries, h.index + 1) else h
  }

  /** The entry the cursor selects. */
  function Selected(h: History): (sql: string)
    requires Valid(h) && h.entries != []
    ensures sql != "" && sql in h.entries
  {
    h.entries[h.index]
  }

  /** Going back and then forward returns to the same state, and so does going
      forward and then back. */
  lemma BackForwardInverse(h: History)
    requires Valid(h)
    ensures CanGoBack(h) ==> Forward(Back(h)) == h
    ensures CanGoForward(h) ==> Back(Forward(h)) == h
  {
  }

  /** The user actions that reach the history: recording a query (executing
      it, loading the editor, inserting generated SQL) and the two buttons. */
  datatype Action = Record(sql: string) | Previous | Next

  function Step(h: History, a: Action): (r: History)
    requires Valid(h)
    ensures Valid(r)
  {
    match a
    case Record(sql) => Add(h, sql)
    case Previous => Back(h)
    case Next => Forward(h)
  }

  /** The state after performing `actions` in order, starting from `h`. */
  function Replay(h: History, actions: seq<Action>): (r: History)
    requires Valid(h)
    ensures Valid(r)
    ensures h.entries <= r.entries
  {
    if actions == [] then h
    else Step(Replay(h, actions[..|actions| - 1]), actions[|actions| - 1])
  }

  /** The strings passed to `addToHistory`, in order. */
  function Recorded(actions: seq<Action>): seq<string> {
    if actions == [] then []
    else
      var a := actions[|actions| - 1];
      Recorded(actions[..|actions| - 1]) + (if a.Record? then [a.sql] else [])
  }

  /** Reference definition of the recorded list, independent of the cursor:
      drop the empty strings ... */
  function NonEmpty(xs: seq<string>): (ys: seq<string>)
    ensures forall k :: 0 <= k < |ys| ==> ys[k] != ""
  {
    if xs == [] then []
    else (if xs[0] == "" then [] else [xs[0]]) + NonEmpty(xs[1..])
  }

  /** ... and merge each run of equal neighbours into one. */
  function Dedup(xs: seq<string>): (ys: seq<string>)
    ensures |ys| <= |xs|
    ensures forall k :: 0 < k < |ys| ==> ys[k - 1] != ys[k]
    ensures forall y :: y in ys ==> y in xs
    ensures xs != [] ==> ys != [] && ys[0] == xs[0]
  {
    if |xs| <= 1 then xs
    else if xs[0] == xs[1] then Dedup(xs[1..])
    else [xs[0]] + Dedup(xs[1..])
  }

  lemma {:induction false} NonEmptySnoc(xs: seq<string>, x: string)
    ensures NonEmpty(xs + [x]) == NonEmpty(xs) + (if x == "" then [] else [x])
  {
    if xs != [] {
      assert (xs + [x])[1..] == xs[1..] + [x];
      NonEmptySnoc(xs[1..], x);
    }
  }

  lemma {:induction false} DedupSnoc(xs: seq<string>, x: string)
    ensures xs != [] ==> Dedup(xs) != [] && Last(Dedup(xs)) == Last(xs)
    ensures Dedup(xs + [x]) == if xs != [] && Last(xs) == x then Dedup(xs) else Dedup(xs) + [x]
  {
    if |xs| >= 2 {
      assert (xs + [x])[1..] == xs[1..] + [x];
      DedupSnoc(xs[1..], x);
    }
  }

  /** The history never depends on the navigation in between: after any
      actions from a fresh session, the entries are exactly the recorded
      strings with the empty ones dropped and adjacent repeats merged. */
  lemma {:induction false} EntriesAreCollapsedRecording(actions: seq<Action>)
    ensures Replay(Initial(), actions).entries == Dedup(NonEmpty(Recorded(actions)))
  {
    if actions != [] {
      var init := actions[..|actions| - 1];
      var a := actions[|actions| - 1];
      EntriesAreCollapsedRecording(init);
      if a.Record? {
        var ys := NonEmpty(Recorded(init));
        assert Recorded(actions) == Recorded(init) + [a.sql];
        NonEmptySnoc(Recorded(init), a.sql);
        DedupSnoc(ys, a.sql);
        var prev := Replay(Initial(), init);
        assert Replay(Initial(), actions) == Add(prev, a.sql);
        assert prev.entries == Dedup(ys);
        if a.sql != "" {
          assert NonEmpty(Recorded(actions)) == ys + [a.sql];
          if ys != [] && Last(ys) == a.sql {
            assert Last(prev.entries) == a.sql;
          } else {
            assert prev.entries == [] || Last(prev.entries) != a.sql;
          }
        } else {
          assert NonEmpty(Recorded(actions)) == ys + [];
          assert ys + [] == ys;
        }
      } else {
        assert Recorded(actions) == Recorded(init);
        assert Replay(Initial(), actions).entries == Replay(Initial(), init).entries;
      }
    }
  }

  /** Navigation alone never changes the entries. */
  lemma {:induction false} NavigationKeepsEntries(h: History, actions: seq<Action>)
    requires Valid(h)
    requires forall k :: 0 <= k < |actions| ==> !actions[k].Record?
    ensures Replay(h, actions).entries == h.entries
  {
    if actions != [] {
      NavigationKeepsEntries(h, actions[..|actions| - 1]);
    }
  }

  /** Pressing the previous button `n` times from a valid state. */
  function BackTimes(h: History, n: nat): (r: History)
    requires Valid(h)
    ensures Valid(r) && r.entries == h.entries
  {
    if n == 0 then h else Back(BackTimes(h, n - 1))
  }

  /** `n` presses of the previous button move the cursor back `n` entries,
      stopping at the first entry. */
  lemma {:induction false} BackTimesStopsAtFirst(h: History, n: nat)
    requires Valid(h) && h.entries != []
    ensures BackTimes(h, n).index == if n <= h.index then h.index - n else 0
  {
    if n > 0 {
      BackTimesStopsAtFirst(h, n - 1);
    }
  }
}
