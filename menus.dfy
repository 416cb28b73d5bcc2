/**
 * The text menus of spoppy/menus.py: a menu is an ordered dictionary from keys
 * to (name, destination) pairs, a typed response is matched against the global
 * options and then the menu's own, and a menu is rendered as a header followed
 * by one line per option.
 */
module Menus {
  import opened Wrappers
  import opened Strings
  import opened Sorting
  import opened Util

  /** A playlist as the player loads it through its link. */
  datatype LoadedPlaylist = LoadedPlaylist(name: string, tracks: seq<Track>)

  /**
   * An entry of the session's playlist container: its name and, when the entry
   * has a `link` (folders do not), the playlist that link loads.
   */
  datatype Playlist = Playlist(name: string, link: Option<LoadedPlaylist>)

  /** Where choosing an option leads. */
  datatype Dest =
    | Up                               // responses.UP
    | Quit                             // responses.QUIT
    | ViewPlaylists                    // the playlist overview menu
    | OpenPlaylist(playlist: LoadedPlaylist)  // a PlayListSelected menu
    | ShufflePlay                      // PlayListSelected.shuffle_play
    | PlayTrack(index: nat)            // PlayListSelected.select_song(index)

  /** One dictionary item `key: (name, destination)`. */
  datatype Entry = Entry(key: string, name: string, dest: Dest)

  /** The `Options` dictionary, in insertion order. */
  type Options = seq<Entry>

  function EntryKey(e: Entry): string
  {
    e.key
  }

  /** A dictionary never holds a key twice. */
  predicate DistinctKeys(opts: Options)
  {
    forall i, j :: 0 <= i < j < |opts| ==> opts[i].key != opts[j].key
  }

  /** `d[key] = (name, dest)`: an existing key keeps its place and gets the new value; a new key goes last. */
  function Put(opts: Options, e: Entry): (r: Options)
    ensures e in r
    ensures forall x :: x in opts && x.key != e.key ==> x in r
    ensures forall x :: x in r ==> x == e || x in opts
    ensures |r| == |opts| || |r| == |opts| + 1
  {
    if opts == [] then [e]
    else if opts[0].key == e.key then [e] + opts[1..]
    else [opts[0]] + Put(opts[1..], e)
  }

  lemma {:induction false} PutNewKey(opts: Options, e: Entry)
    requires forall i :: 0 <= i < |opts| ==> opts[i].key != e.key
    ensures Put(opts, e) == opts + [e]
  {
    if opts != [] {
      PutNewKey(opts[1..], e);
    }
  }

  /** Every entry under another key keeps its position. */
  lemma {:induction false} PutKeepsOthers(opts: Options, e: Entry)
    ensures forall i :: 0 <= i < |opts| && opts[i].key != e.key ==> Put(opts, e)[i] == opts[i]
  {
    if opts != [] && opts[0].key != e.key {
      PutKeepsOthers(opts[1..], e);
      var r := Put(opts, e);
      forall i | 0 <= i < |opts| && opts[i].key != e.key
        ensures r[i] == opts[i]
      {
        if i > 0 {
          assert r[i] == Put(opts[1..], e)[i - 1];
          assert opts[1..][i - 1] == opts[i];
        }
      }
    }
  }

  /** The keys of `Put(opts, e)` are `e`'s and those of `opts`. */
  lemma PutKeys(opts: Options, e: Entry, x: Entry)
    requires x in Put(opts, e)
    ensures x == e || exists k :: 0 <= k < |opts| && opts[k] == x
  {
  }

  /** The head's key, distinct from the new entry's, is not among the rest after assignment. */
  lemma PutFreshHead(opts: Options, e: Entry)
    requires DistinctKeys(opts) && opts != [] && opts[0].key != e.key
    ensures forall x :: x in Put(opts[1..], e) ==> x.key != opts[0].key
  {
    var tail := opts[1..];
    forall x | x in Put(tail, e)
      ensures x.key != opts[0].key
    {
      PutKeys(tail, e, x);
      if x != e {
        var k :| 0 <= k < |tail| && tail[k] == x;
        assert opts[k + 1] == x;
      }
    }
  }

  /** In a dictionary, `d[key] = value` keeps the keys distinct. */
  lemma {:induction false} PutDistinct(opts: Options, e: Entry)
    requires DistinctKeys(opts)
    ensures DistinctKeys(Put(opts, e))
  {
    if opts != [] && opts[0].key != e.key {
      var tail := opts[1..];
      assert DistinctKeys(tail);
      PutDistinct(tail, e);
      PutFreshHead(opts, e);
      ConsDistinct(opts[0], Put(tail, e));
    }
  }

  /** An entry whose key is not in a dictionary can head it. */
  lemma ConsDistinct(x: Entry, rest: Options)
    requires DistinctKeys(rest)
    requires forall y :: y in rest ==> y.key != x.key
    ensures DistinctKeys([x] + rest)
  {
    var r := [x] + rest;
    forall i, j | 0 <= i < j < |r|
      ensures r[i].key != r[j].key
    {
      assert r[j] == rest[j - 1];
      if i == 0 {
        assert r[j] in rest;
      } else {
        assert r[i] == rest[i - 1];
      }
    }
  }

  /** In a dictionary, an existing key keeps its position and gets the new entry in place of the old one. */
  lemma {:induction false} PutReplaces(opts: Options, e: Entry, i: nat)
    requires DistinctKeys(opts) && i < |opts| && opts[i].key == e.key
    ensures |Put(opts, e)| == |opts| && Put(opts, e)[i] == e
  {
    if opts[0].key != e.key {
      assert i > 0 && opts[1..][i - 1] == opts[i];
      assert DistinctKeys(opts[1..]);
      PutReplaces(opts[1..], e, i - 1);
    } else {
      assert i == 0;
    }
  }

  /** After `d[key] = value`, looking the key up gives the new value, whether the key was new or not. */
  lemma PutLookup(opts: Options, e: Entry)
    requires DistinctKeys(opts)
    ensures DistinctKeys(Put(opts, e))
    ensures Lookup(Put(opts, e), e.key) == Some(e.dest)
  {
    PutDistinct(opts, e);
    var r := Put(opts, e);
    var i :| 0 <= i < |r| && r[i] == e;
    LookupEntry(r, i);
  }

  /** Adding an entry under a new key keeps the keys distinct. */
  lemma AppendNewKey(opts: Options, e: Entry)
    requires DistinctKeys(opts)
    requires forall i :: 0 <= i < |opts| ==> opts[i].key != e.key
    ensures DistinctKeys(opts + [e])
  {
  }

  // ---------------------------------------------------------------------
  // Options.match_best_or_none
  // ---------------------------------------------------------------------

  /** The four ways an entry can answer a (lower-cased) pattern. */
  datatype Test =
    | KeyEquals(p: string)           // key == pattern
    | StrippedKeyEquals(p: string)   // key.lstrip(' ') == pattern
    | KeyStartsWith(p: string)       // key.startswith(pattern)
    | NameContains(p: string)        // pattern in name.lower()

  predicate Passes(e: Entry, t: Test)
  {
    match t
    case KeyEquals(p) => e.key == p
    case StrippedKeyEquals(p) => LStrip(e.key) == p
    case KeyStartsWith(p) => StartsWith(e.key, p)
    case NameContains(p) => Contains(Lower(e.name), p)
  }

  /** The first entry, in dictionary order, that passes `t`. */
  function FirstPassing(opts: Options, t: Test): Option<Entry>
  {
    if opts == [] then None
    else match FirstPassing(opts[..|opts| - 1], t)
      case Some(e) => Some(e)
      case None => if Passes(opts[|opts| - 1], t) then Some(opts[|opts| - 1]) else None
  }

  /** The keys of the entries that pass `t`, in dictionary order. */
  function Candidates(opts: Options, t: Test): seq<string>
  {
    if opts == [] then []
    else Candidates(opts[..|opts| - 1], t) + (if Passes(opts[|opts| - 1], t) then [opts[|opts| - 1].key] else [])
  }

  /** `self[key][1]`: the destination stored under `key`. */
  function Lookup(opts: Options, key: string): (r: Option<Dest>)
    ensures r.Some? ==> exists i :: 0 <= i < |opts| && opts[i].key == key && opts[i].dest == r.value
    ensures r.None? ==> forall i :: 0 <= i < |opts| ==> opts[i].key != key
  {
    match FirstPassing(opts, KeyEquals(key))
    case Some(e) =>
      FirstPassingIn(opts, KeyEquals(key));
      Some(e.dest)
    case None =>
      FirstPassingNone(opts, KeyEquals(key));
      None
  }

  /**
   * What `match_best_or_none` answers, rule by rule: the pattern is lower-cased;
   * an exact key wins; then the first key equal to the pattern once its leading
   * spaces are stripped; then the only key starting with the pattern (several
   * such keys give no answer, whatever the names say); and only when no key
   * starts with the pattern, the only option whose lower-cased name contains it.
   */
  function MatchSpec(opts: Options, pattern: string): (r: Option<Dest>)
    ensures r.Some? ==> exists i :: 0 <= i < |opts| && opts[i].dest == r.value
  {
    var p := Lower(pattern);
    if FirstPassing(opts, KeyEquals(p)).Some? then Lookup(opts, p)
    else match FirstPassing(opts, StrippedKeyEquals(p))
      case Some(e) => Lookup(opts, e.key)
      case None =>
        var byKey := Candidates(opts, KeyStartsWith(p));
        var byName := Candidates(opts, NameContains(p));
        if byKey != [] then (if |byKey| == 1 then Lookup(opts, byKey[0]) else None)
        else if |byName| == 1 then Lookup(opts, byName[0])
        else None
  }

  /** A match found in a prefix of the options is the match of all of them. */
  lemma {:induction false} FirstPassingPrefix(opts: Options, n: nat, t: Test)
    requires n <= |opts| && FirstPassing(opts[..n], t).Some?
    ensures FirstPassing(opts, t) == FirstPassing(opts[..n], t)
  {
    if n < |opts| {
      var init := opts[..|opts| - 1];
      assert init[..n] == opts[..n];
      FirstPassingPrefix(init, n, t);
    } else {
      assert opts[..n] == opts;
    }
  }

  /**
   * `Options.match_best_or_none(pattern)`: one pass over the items that returns
   * as soon as a stripped key equals the pattern and otherwise collects the
   * key-prefix and name candidates.
   */
  method MatchBestOrNone(opts: Options, pattern: string) returns (r: Option<Dest>)
    ensures r == MatchSpec(opts, pattern)
  {
    var p := Lower(pattern);
    if FirstPassing(opts, KeyEquals(p)).Some? {
      return Lookup(opts, p);
    }
    var possibilitiesKey: seq<string> := [];
    var possibilitiesName: seq<string> := [];
    for i := 0 to |opts|
      invariant FirstPassing(opts[..i], StrippedKeyEquals(p)) == None
      invariant possibilitiesKey == Candidates(opts[..i], KeyStartsWith(p))
      invariant possibilitiesName == Candidates(opts[..i], NameContains(p))
    {
      assert opts[..i + 1][..i] == opts[..i];
      var key := opts[i].key;
      if p == LStrip(key) {
        FirstPassingPrefix(opts, i + 1, StrippedKeyEquals(p));
        return Lookup(opts, key);
      }
      if StartsWith(key, p) {
        possibilitiesKey := possibilitiesKey + [key];
      }
      if Contains(Lower(opts[i].name), p) {
        possibilitiesName := possibilitiesName + [key];
      }
    }
    assert opts[..|opts|] == opts;
    if possibilitiesKey != [] {
      if |possibilitiesKey| == 1 {
        r := Lookup(opts, possibilitiesKey[0]);
      } else {
        r := None;
      }
    } else if possibilitiesName != [] && |possibilitiesName| == 1 {
      r := Lookup(opts, possibilitiesName[0]);
    } else {
      r := None;
    }
  }

  // Facts about the search helpers.

  /** No entry passes exactly when there is no first one. */
  lemma FirstPassingNone(opts: Options, t: Test)
    ensures FirstPassing(opts, t).None? <==> forall j :: 0 <= j < |opts| ==> !Passes(opts[j], t)
  {
    if FirstPassing(opts, t).Some? {
      FirstPassingIn(opts, t);
    } else {
      forall j | 0 <= j < |opts|
        ensures !Passes(opts[j], t)
      {
        if Passes(opts[j], t) {
          FirstPassingSome(opts, t, j);
          assert false;
        }
      }
    }
  }

  /** One passing entry is enough for there to be a first one. */
  lemma {:induction false} FirstPassingSome(opts: Options, t: Test, i: nat)
    requires i < |opts| && Passes(opts[i], t)
    ensures FirstPassing(opts, t).Some?
  {
    var init := opts[..|opts| - 1];
    if i < |opts| - 1 {
      assert init[i] == opts[i];
      FirstPassingSome(init, t, i);
    }
  }

  /** An entry that passes with none before it is the first one. */
  lemma {:induction false} FirstPassingAt(opts: Options, t: Test, i: nat)
    requires i < |opts| && Passes(opts[i], t)
    requires forall j :: 0 <= j < i ==> !Passes(opts[j], t)
    ensures FirstPassing(opts, t) == Some(opts[i])
  {
    var init := opts[..|opts| - 1];
    if i < |opts| - 1 {
      FirstPassingAt(init, t, i);
    } else {
      FirstPassingNone(init, t);
    }
  }

  /** The first passing entry is an entry of the options and passes. */
  lemma {:induction false} FirstPassingIn(opts: Options, t: Test)
    requires FirstPassing(opts, t).Some?
    ensures exists i :: 0 <= i < |opts| && opts[i] == FirstPassing(opts, t).value && Passes(opts[i], t)
  {
    var init := opts[..|opts| - 1];
    if FirstPassing(init, t).Some? {
      FirstPassingIn(init, t);
      var i :| 0 <= i < |init| && init[i] == FirstPassing(init, t).value && Passes(init[i], t);
      assert opts[i] == init[i];
    }
  }

  /** In a dictionary, looking up an entry's key gives that entry's destination. */
  lemma LookupEntry(opts: Options, i: nat)
    requires DistinctKeys(opts) && i < |opts|
    ensures Lookup(opts, opts[i].key) == Some(opts[i].dest)
  {
    FirstPassingAt(opts, KeyEquals(opts[i].key), i);
  }

  /** No candidates exactly when no entry passes. */
  lemma CandidatesNone(opts: Options, t: Test)
    ensures Candidates(opts, t) == [] <==> forall j :: 0 <= j < |opts| ==> !Passes(opts[j], t)
  {
    CandidatesFirst(opts, t);
    FirstPassingNone(opts, t);
  }

  /** There are no candidates exactly when there is no first passing entry. */
  lemma {:induction false} CandidatesFirst(opts: Options, t: Test)
    ensures Candidates(opts, t) == [] <==> FirstPassing(opts, t).None?
  {
    if opts != [] {
      var init := opts[..|opts| - 1];
      CandidatesFirst(init, t);
      if Candidates(init, t) != [] {
        assert |Candidates(opts, t)| >= |Candidates(init, t)| > 0;
      }
    }
  }

  /** When exactly one entry passes, it is the only candidate. */
  lemma {:induction false} CandidatesSingle(opts: Options, t: Test, i: nat)
    requires i < |opts| && Passes(opts[i], t)
    requires forall j :: 0 <= j < |opts| && j != i ==> !Passes(opts[j], t)
    ensures Candidates(opts, t) == [opts[i].key]
  {
    var init := opts[..|opts| - 1];
    var last := opts[|opts| - 1];
    assert Candidates(opts, t) == Candidates(init, t) + (if Passes(last, t) then [last.key] else []);
    if i < |opts| - 1 {
      assert Candidates(init, t) == [opts[i].key] by {
        assert init[i] == opts[i];
        forall j | 0 <= j < |init| && j != i
          ensures !Passes(init[j], t)
        {
          assert init[j] == opts[j];
        }
        CandidatesSingle(init, t, i);
      }
      assert !Passes(last, t);
    } else {
      CandidatesOnlyLast(opts, t);
    }
  }

  /** When only the last entry passes, its key is the only candidate. */
  lemma {:induction false} CandidatesOnlyLast(opts: Options, t: Test)
    requires opts != [] && Passes(opts[|opts| - 1], t)
    requires forall j :: 0 <= j < |opts| - 1 ==> !Passes(opts[j], t)
    ensures Candidates(opts, t) == [opts[|opts| - 1].key]
  {
    var init := opts[..|opts| - 1];
    forall j | 0 <= j < |init|
      ensures !Passes(init[j], t)
    {
      assert init[j] == opts[j];
    }
    CandidatesNone(init, t);
  }

  /** Two passing entries make at least two candidates. */
  lemma {:induction false} CandidatesTwo(opts: Options, t: Test, i: nat, j: nat)
    requires i < j < |opts| && Passes(opts[i], t) && Passes(opts[j], t)
    ensures |Candidates(opts, t)| >= 2
  {
    var init := opts[..|opts| - 1];
    assert init[i] == opts[i];
    var tail := if Passes(opts[|opts| - 1], t) then [opts[|opts| - 1].key] else [];
    assert Candidates(opts, t) == Candidates(init, t) + tail;
    if j < |opts| - 1 {
      assert init[j] == opts[j];
      CandidatesTwo(init, t, i, j);
    } else {
      CandidatesNone(init, t);
      assert Candidates(init, t) != [];
      assert |tail| == 1;
    }
  }

  // The rules of match_best_or_none, one lemma each.

  /** The pattern is lower-cased before it is compared with anything. */
  lemma MatchIgnoresCase(opts: Options, pattern: string)
    ensures MatchSpec(opts, pattern) == MatchSpec(opts, Lower(pattern))
  {
    LowerIdempotent(pattern);
  }

  /** A key equal to the lower-cased pattern selects its own destination. */
  lemma MatchExactKey(opts: Options, pattern: string, i: nat)
    requires DistinctKeys(opts) && i < |opts|
    requires opts[i].key == Lower(pattern)
    ensures MatchSpec(opts, pattern) == Some(opts[i].dest)
  {
    LookupEntry(opts, i);
  }

  /** With no exact key, the first key that equals the pattern once its leading spaces are stripped wins. */
  lemma MatchStrippedKey(opts: Options, pattern: string, i: nat)
    requires DistinctKeys(opts) && i < |opts|
    requires forall j :: 0 <= j < |opts| ==> opts[j].key != Lower(pattern)
    requires LStrip(opts[i].key) == Lower(pattern)
    requires forall j :: 0 <= j < i ==> LStrip(opts[j].key) != Lower(pattern)
    ensures MatchSpec(opts, pattern) == Some(opts[i].dest)
  {
    var p := Lower(pattern);
    FirstPassingNone(opts, KeyEquals(p));
    FirstPassingAt(opts, StrippedKeyEquals(p), i);
    LookupEntry(opts, i);
  }

  /** Neither an exact key nor a stripped key matches. */
  ghost predicate NoKeyMatch(opts: Options, p: string)
  {
    forall j :: 0 <= j < |opts| ==> opts[j].key != p && LStrip(opts[j].key) != p
  }

  lemma NoKeyMatchSearches(opts: Options, p: string)
    requires NoKeyMatch(opts, p)
    ensures FirstPassing(opts, KeyEquals(p)).None? && FirstPassing(opts, StrippedKeyEquals(p)).None?
  {
    FirstPassingNone(opts, KeyEquals(p));
    FirstPassingNone(opts, StrippedKeyEquals(p));
  }

  /** Otherwise the only key that starts with the pattern selects its destination. */
  lemma MatchUniquePrefix(opts: Options, pattern: string, i: nat)
    requires DistinctKeys(opts) && i < |opts|
    requires NoKeyMatch(opts, Lower(pattern))
    requires StartsWith(opts[i].key, Lower(pattern))
    requires forall j :: 0 <= j < |opts| && j != i ==> !StartsWith(opts[j].key, Lower(pattern))
    ensures MatchSpec(opts, pattern) == Some(opts[i].dest)
  {
    var p := Lower(pattern);
    NoKeyMatchSearches(opts, p);
    CandidatesSingle(opts, KeyStartsWith(p), i);
    LookupEntry(opts, i);
  }

  /** Two keys starting with the pattern give no answer, even if exactly one name contains it. */
  lemma MatchAmbiguousPrefix(opts: Options, pattern: string, i: nat, j: nat)
    requires i < j < |opts|
    requires NoKeyMatch(opts, Lower(pattern))
    requires StartsWith(opts[i].key, Lower(pattern)) && StartsWith(opts[j].key, Lower(pattern))
    ensures MatchSpec(opts, pattern) == None
  {
    var p := Lower(pattern);
    NoKeyMatchSearches(opts, p);
    CandidatesTwo(opts, KeyStartsWith(p), i, j);
  }

  /** With no key starting with the pattern, the only option whose lower-cased name contains it is chosen. */
  lemma MatchUniqueName(opts: Options, pattern: string, i: nat)
    requires DistinctKeys(opts) && i < |opts|
    requires NoKeyMatch(opts, Lower(pattern))
    requires forall j :: 0 <= j < |opts| ==> !StartsWith(opts[j].key, Lower(pattern))
    requires Contains(Lower(opts[i].name), Lower(pattern))
    requires forall j :: 0 <= j < |opts| && j != i ==> !Contains(Lower(opts[j].name), Lower(pattern))
    ensures MatchSpec(opts, pattern) == Some(opts[i].dest)
  {
    var p := Lower(pattern);
    NoKeyMatchSearches(opts, p);
    CandidatesNone(opts, KeyStartsWith(p));
    CandidatesSingle(opts, NameContains(p), i);
    LookupEntry(opts, i);
  }

  /** With no key starting with the pattern, two names containing it give no answer. */
  lemma MatchAmbiguousName(opts: Options, pattern: string, i: nat, j: nat)
    requires i < j < |opts|
    requires NoKeyMatch(opts, Lower(pattern))
    requires forall k :: 0 <= k < |opts| ==> !StartsWith(opts[k].key, Lower(pattern))
    requires Contains(Lower(opts[i].name), Lower(pattern)) && Contains(Lower(opts[j].name), Lower(pattern))
    ensures MatchSpec(opts, pattern) == None
  {
    var p := Lower(pattern);
    NoKeyMatchSearches(opts, p);
    CandidatesNone(opts, KeyStartsWith(p));
    CandidatesTwo(opts, NameContains(p), i, j);
  }

  /** When no key and no name relates to the pattern, there is no answer. */
  lemma MatchNothing(opts: Options, pattern: string)
    requires NoKeyMatch(opts, Lower(pattern))
    requires forall k :: 0 <= k < |opts| ==> !StartsWith(opts[k].key, Lower(pattern))
    requires forall k :: 0 <= k < |opts| ==> !Contains(Lower(opts[k].name), Lower(pattern))
    ensures MatchSpec(opts, pattern) == None
  {
    var p := Lower(pattern);
    NoKeyMatchSearches(opts, p);
    CandidatesNone(opts, KeyStartsWith(p));
    CandidatesNone(opts, NameContains(p));
  }

  // ---------------------------------------------------------------------
  // Menu
  // ---------------------------------------------------------------------

  /** A menu: its header, its own options and its INCLUDE_UP_ITEM flag. */
  datatype Menu = Menu(header: string, options: Options, includeUp: bool)

  /** `Menu.GLOBAL_OPTIONS`, offered by every menu. */
  const GlobalOptions: Options := [Entry("u", "..", Up), Entry("q", "quit", Quit)]

  /** `Menu.is_valid_response`: the global options' match, or else the menu's own. */
  function IsValidResponse(menu: Menu, response: string): (r: Option<Dest>)
    ensures r.Some? ==> exists e :: e in GlobalOptions + menu.options && e.dest == r.value
  {
    match MatchSpec(GlobalOptions, response)
    case Some(d) => Some(d)
    case None => MatchSpec(menu.options, response)
  }

  /** "q" quits and "u" goes up from every menu, whatever its own options are; so do "Q" and "U". */
  lemma GlobalKeysWin(menu: Menu, response: string)
    ensures Lower(response) == "q" ==> IsValidResponse(menu, response) == Some(Quit)
    ensures Lower(response) == "u" ==> IsValidResponse(menu, response) == Some(Up)
  {
    if Lower(response) == "u" {
      MatchExactKey(GlobalOptions, response, 0);
    }
    if Lower(response) == "q" {
      MatchExactKey(GlobalOptions, response, 1);
    }
  }

  /**
   * A response that is no part of ".." or "quit" is not claimed by the global
   * options, so the menu's own options decide. The empty response is not such
   * a response, but both global keys start with it, so the globals give no
   * answer and the menu's own options decide there too.
   */
  lemma LocalOptionsDecide(menu: Menu, response: string)
    requires Lower(response) == "" || (!Contains("..", Lower(response)) && !Contains("quit", Lower(response)))
    ensures IsValidResponse(menu, response) == MatchSpec(menu.options, response)
  {
    if Lower(response) == "" {
      GlobalKeysMiss("");
      assert StartsWith(GlobalOptions[0].key, "") && StartsWith(GlobalOptions[1].key, "");
      MatchAmbiguousPrefix(GlobalOptions, response, 0, 1);
    } else {
      GlobalsSilent(Lower(response));
      MatchNothing(GlobalOptions, response);
    }
  }

  /**
   * A response other than "q" and "u" that is part of "quit" matches the name
   * of the quit option before the menu's own options are looked at: "t", "it"
   * or "qui" quit from every menu.
   */
  lemma QuitByName(menu: Menu, response: string)
    requires Lower(response) != "" && Lower(response) != "q" && Lower(response) != "u"
    requires Contains("quit", Lower(response))
    ensures IsValidResponse(menu, response) == Some(Quit)
  {
    QuitNameMatch(response);
  }

  /** The global options alone answer such a response with `Quit`, by name. */
  lemma QuitNameMatch(response: string)
    requires Lower(response) != "" && Lower(response) != "q" && Lower(response) != "u"
    requires Contains("quit", Lower(response))
    ensures MatchSpec(GlobalOptions, response) == Some(Quit)
  {
    var p := Lower(response);
    assert NoKeyMatch(GlobalOptions, p) by { GlobalKeysMiss(p); }
    assert forall j :: 0 <= j < |GlobalOptions| ==> !StartsWith(GlobalOptions[j].key, p) by {
      GlobalKeysNoPrefixBut(p);
    }
    assert Contains(Lower(GlobalOptions[1].name), p) by { GlobalNamesLower(); }
    assert forall j :: 0 <= j < |GlobalOptions| && j != 1 ==> !Contains(Lower(GlobalOptions[j].name), p) by {
      UpNameMisses(p);
      GlobalNamesLower();
    }
    GlobalKeysDistinct();
    MatchUniqueName(GlobalOptions, response, 1);
  }

  /**
   * The mirror of `QuitByName` for the up option: "." and "..", the non-empty
   * parts of "..", match the name of the up option and go up from every menu.
   */
  lemma UpByName(menu: Menu, response: string)
    requires Lower(response) != "" && Contains("..", Lower(response))
    ensures IsValidResponse(menu, response) == Some(Up)
  {
    UpNameMatch(response);
  }

  /** The global options alone answer such a response with `Up`, by name. */
  lemma UpNameMatch(response: string)
    requires Lower(response) != "" && Contains("..", Lower(response))
    ensures MatchSpec(GlobalOptions, response) == Some(Up)
  {
    var p := Lower(response);
    assert p != "u" && p != "q" by { ContainsHead("..", p); }
    assert NoKeyMatch(GlobalOptions, p) by { GlobalKeysMiss(p); }
    assert forall j :: 0 <= j < |GlobalOptions| ==> !StartsWith(GlobalOptions[j].key, p) by {
      GlobalKeysNoPrefixBut(p);
    }
    assert Contains(Lower(GlobalOptions[0].name), p) by { GlobalNamesLower(); }
    assert forall j :: 0 <= j < |GlobalOptions| && j != 0 ==> !Contains(Lower(GlobalOptions[j].name), p) by {
      QuitNameMisses(p);
      GlobalNamesLower();
    }
    GlobalKeysDistinct();
    MatchUniqueName(GlobalOptions, response, 0);
  }

  /** The quit option's name "quit" holds no part of "..". */
  lemma QuitNameMisses(p: string)
    requires p != "" && Contains("..", p)
    ensures !Contains("quit", p)
  {
    ContainsHead("..", p);
    ContainsHead("quit", p);
  }

  /** The global options' keys "u" and "q" differ. */
  lemma GlobalKeysDistinct()
    ensures DistinctKeys(GlobalOptions)
  {
    assert GlobalOptions[0].key != GlobalOptions[1].key;
  }

  /** No global key, stripped or not, equals a response other than "u" and "q". */
  lemma GlobalKeysMiss(p: string)
    requires p != "u" && p != "q"
    ensures NoKeyMatch(GlobalOptions, p)
  {
    forall j | 0 <= j < |GlobalOptions|
      ensures GlobalOptions[j].key != p && LStrip(GlobalOptions[j].key) != p
    {
      var key := GlobalOptions[j].key;
      assert key == "u" || key == "q";
      assert |key| == 1 && key[0] != ' ';
      assert LStrip(key) == key;
    }
  }

  /** No global key starts with a non-empty response other than "u" and "q". */
  lemma GlobalKeysNoPrefixBut(p: string)
    requires p != "" && p != "u" && p != "q"
    ensures forall k :: 0 <= k < |GlobalOptions| ==> !StartsWith(GlobalOptions[k].key, p)
  {
    forall j | 0 <= j < |GlobalOptions|
      ensures !StartsWith(GlobalOptions[j].key, p)
    {
      var key := GlobalOptions[j].key;
      assert |key| == 1;
      if StartsWith(key, p) {
        OneCharPrefix(key, p);
      }
    }
  }

  /** The up option's name ".." holds no part of "quit". */
  lemma UpNameMisses(p: string)
    requires p != "" && Contains("quit", p)
    ensures !Contains("..", p)
  {
    ContainsHead("quit", p);
    ContainsHead("..", p);
  }

  /** What the global options need for `MatchNothing`. */
  lemma GlobalsSilent(p: string)
    requires p != "" && !Contains("..", p) && !Contains("quit", p)
    ensures NoKeyMatch(GlobalOptions, p)
    ensures forall k :: 0 <= k < |GlobalOptions| ==> !StartsWith(GlobalOptions[k].key, p)
    ensures forall k :: 0 <= k < |GlobalOptions| ==> !Contains(Lower(GlobalOptions[k].name), p)
  {
    GlobalKeysDiffer(p);
    GlobalKeysNoPrefix(p);
    GlobalNamesMiss(p);
  }

  lemma GlobalKeysDiffer(p: string)
    requires !Contains("quit", p)
    ensures NoKeyMatch(GlobalOptions, p)
  {
    QuitLetters(p);
    forall j | 0 <= j < |GlobalOptions|
      ensures GlobalOptions[j].key != p && LStrip(GlobalOptions[j].key) != p
    {
    }
  }

  lemma GlobalKeysNoPrefix(p: string)
    requires p != "" && !Contains("quit", p)
    ensures forall k :: 0 <= k < |GlobalOptions| ==> !StartsWith(GlobalOptions[k].key, p)
  {
    QuitLetters(p);
    forall j | 0 <= j < |GlobalOptions|
      ensures !StartsWith(GlobalOptions[j].key, p)
    {
      var key := GlobalOptions[j].key;
      assert |key| == 1;
      if StartsWith(key, p) {
        OneCharPrefix(key, p);
      }
    }
  }

  lemma GlobalNamesMiss(p: string)
    requires !Contains("..", p) && !Contains("quit", p)
    ensures forall k :: 0 <= k < |GlobalOptions| ==> !Contains(Lower(GlobalOptions[k].name), p)
  {
    GlobalNamesLower();
    forall j | 0 <= j < |GlobalOptions|
      ensures !Contains(Lower(GlobalOptions[j].name), p)
    {
      if j == 0 {
        assert GlobalOptions[0].name == "..";
      } else {
        assert GlobalOptions[1].name == "quit";
      }
    }
  }

  lemma GlobalNamesLower()
    ensures Lower("..") == ".." && Lower("quit") == "quit"
  {
  }

  /** A non-empty prefix of a one-character string is that string. */
  lemma OneCharPrefix(s: string, p: string)
    requires |s| == 1 && p != "" && StartsWith(s, p)
    ensures p == s
  {
  }

  /** The keys "u" and "q" are letters of "quit". */
  lemma QuitLetters(p: string)
    requires !Contains("quit", p)
    ensures p != "u" && p != "q"
  {
    assert Contains("quit", "u") && Contains("quit", "q");
  }

  /** `Menu.get_menu_item(key, value)`: `'[key]: value'`. */
  function GetMenuItem(key: string, name: string): (r: string)
    ensures ']' !in key ==> ParseMenuItem(r) == Some((key, name))
  {
    if ']' !in key then ParseMenuLine(key, name); "[" + key + "]: " + name
    else "[" + key + "]: " + name
  }

  /** The position of the first `c` in `s`, if any. */
  function IndexOf(s: string, c: char): (r: Option<nat>)
    ensures r.Some? ==> r.value < |s| && s[r.value] == c && c !in s[..r.value]
    ensures r.None? ==> c !in s
  {
    if s == [] then None
    else if s[0] == c then Some(0)
    else match IndexOf(s[1..], c)
      case Some(k) => (assert s[..k + 1] == [s[0]] + s[1..][..k]; Some(k + 1))
      case None => None
  }

  /** The first `c` after a stretch free of `c` is right after it. */
  lemma {:induction false} IndexOfAfter(a: string, c: char, b: string)
    requires c !in a
    ensures IndexOf(a + [c] + b, c) == Some(|a|)
  {
    var s := a + [c] + b;
    if a != [] {
      assert s[0] == a[0] && s[1..] == a[1..] + [c] + b;
      IndexOfAfter(a[1..], c, b);
    }
  }

  /** Reads a menu line back into its key and its name. */
  function ParseMenuItem(line: string): Option<(string, string)>
  {
    if line == [] || line[0] != '[' then None
    else match IndexOf(line[1..], ']')
      case None => None
      case Some(k) =>
        var rest := line[1..][k + 1..];
        if StartsWith(rest, ": ") then Some((line[1..][..k], rest[2..])) else None
  }

  /** A menu line gives back its key and name, provided the key has no ']'. */
  lemma ParseMenuLine(key: string, name: string)
    requires ']' !in key
    ensures ParseMenuItem("[" + key + "]: " + name) == Some((key, name))
  {
    var line := "[" + key + "]: " + name;
    var body := line[1..];
    assert body == key + "]" + (": " + name);
    IndexOfAfter(key, ']', ": " + name);
    assert body[..|key|] == key;
    assert body[|key| + 1..] == ": " + name;
  }

  /** The options a menu shows: all of them with INCLUDE_UP_ITEM, otherwise all but key "u". */
  function Shown(s: Options, includeUp: bool): Options
  {
    if s == [] then []
    else (if includeUp || s[0].key != "u" then [s[0]] else []) + Shown(s[1..], includeUp)
  }

  lemma {:induction false} ShownAppend(a: Options, b: Options, includeUp: bool)
    ensures Shown(a + b, includeUp) == Shown(a, includeUp) + Shown(b, includeUp)
  {
    if a == [] {
      assert a + b == b;
    } else {
      var ab := a + b;
      assert ab[0] == a[0] && ab[1..] == a[1..] + b;
      ShownAppend(a[1..], b, includeUp);
      var head := if includeUp || a[0].key != "u" then [a[0]] else [];
      assert Shown(ab, includeUp) == head + Shown(ab[1..], includeUp);
      assert Shown(a, includeUp) == head + Shown(a[1..], includeUp);
      assert head + (Shown(a[1..], includeUp) + Shown(b, includeUp))
          == (head + Shown(a[1..], includeUp)) + Shown(b, includeUp);
    }
  }

  lemma {:induction false} ShownAll(s: Options)
    ensures Shown(s, true) == s
  {
    if s != [] {
      ShownAll(s[1..]);
    }
  }

  /** Without the up item, an option is shown exactly when its key is not "u". */
  lemma {:induction false} ShownWithoutUp(s: Options)
    ensures forall i :: 0 <= i < |Shown(s, false)| ==> Shown(s, false)[i].key != "u"
    ensures forall e :: e in s && e.key != "u" ==> e in Shown(s, false)
    ensures forall e :: e in Shown(s, false) ==> e in s
  {
    if s != [] {
      ShownWithoutUp(s[1..]);
    }
  }

  /** The options `get_ui` lists: the menu's own in key order, then the global ones. */
  function DisplayedEntries(menu: Menu): Options
  {
    Shown(SortBy(menu.options, EntryKey) + GlobalOptions, menu.includeUp)
  }

  function MenuLines(s: Options): (r: seq<string>)
    ensures |r| == |s| && forall i :: 0 <= i < |s| ==> r[i] == GetMenuItem(s[i].key, s[i].name)
  {
    if s == [] then [] else [GetMenuItem(s[0].key, s[0].name)] + MenuLines(s[1..])
  }

  /** The lines of `get_ui`: the header, an empty line, then one line per displayed option. */
  function UiLines(menu: Menu): seq<string>
  {
    [menu.header, ""] + MenuLines(DisplayedEntries(menu))
  }

  /** `Menu.get_ui`: the lines joined with newlines. */
  function GetUi(menu: Menu): (r: string)
    ensures StartsWith(r, menu.header + "\n\n")
    ensures |r| >= 9 && r[|r| - 9..] == "[q]: quit"
  {
    UiFrame(menu);
    Join(UiLines(menu), "\n")
  }

  /** The joined lines start with the header and a blank line, and end with the quit line. */
  lemma UiFrame(menu: Menu)
    ensures var r := Join(UiLines(menu), "\n");
      StartsWith(r, menu.header + "\n\n") && |r| >= 9 && r[|r| - 9..] == "[q]: quit"
  {
    DisplayedEndsWithQuit(menu);
    var ml := MenuLines(DisplayedEntries(menu));
    assert |ml| >= 1 && ml[|ml| - 1] == "[q]: quit";
    UiHead(menu.header, ml);
    UiTail(menu.header, ml);
  }

  lemma UiHead(header: string, ml: seq<string>)
    requires ml != []
    ensures StartsWith(Join([header, ""] + ml, "\n"), header + "\n\n")
  {
    var lines := [header, ""] + ml;
    assert lines[1..] == [""] + ml;
    assert lines[1..][1..] == ml;
    var tail := Join(lines[1..], "\n");
    assert tail == "" + "\n" + Join(ml, "\n");
    assert Join(lines, "\n") == (header + "\n\n") + Join(ml, "\n");
  }

  lemma UiTail(header: string, ml: seq<string>)
    requires ml != [] && ml[|ml| - 1] == "[q]: quit"
    ensures var r := Join([header, ""] + ml, "\n"); |r| >= 9 && r[|r| - 9..] == "[q]: quit"
  {
    var lines := [header, ""] + ml;
    JoinLast(lines, "\n");
    assert lines[|lines| - 1] == ml[|ml| - 1];
  }

  /** Every menu shows at least one line, and the last one is the quit option. */
  lemma DisplayedEndsWithQuit(menu: Menu)
    ensures var shown := DisplayedEntries(menu);
      |shown| >= 1 && shown[|shown| - 1] == Entry("q", "quit", Quit)
  {
    if menu.includeUp {
      DisplayedWithUp(menu);
      var shown := DisplayedEntries(menu);
      assert shown[|shown| - 1] == shown[|menu.options|..][1];
    } else {
      DisplayedWithoutUp(menu);
    }
  }

  /**
   * Split at its newlines, the rendered menu is the header, an empty line, and
   * one `[key]: name` line per displayed option, in display order; this needs
   * the header, keys and names to be free of newlines.
   */
  lemma GetUiLines(menu: Menu)
    requires '\n' !in menu.header
    requires forall i :: 0 <= i < |menu.options| ==> '\n' !in menu.options[i].key && '\n' !in menu.options[i].name
    ensures var lines := Split(GetUi(menu), '\n');
      var shown := DisplayedEntries(menu);
      && |lines| == 2 + |shown|
      && lines[0] == menu.header && lines[1] == ""
      && forall i :: 0 <= i < |shown| ==> lines[i + 2] == GetMenuItem(shown[i].key, shown[i].name)
  {
    var lines := UiLines(menu);
    DisplayedWithoutNewlines(menu);
    MenuLinesWithoutNewlines(DisplayedEntries(menu));
    forall i | 0 <= i < |lines|
      ensures '\n' !in lines[i]
    {
      if i >= 2 {
        assert lines[i] == MenuLines(DisplayedEntries(menu))[i - 2];
      }
    }
    SplitJoin(lines, '\n');
  }

  /** Displayed options carry no newline when the menu's own options carry none. */
  lemma DisplayedWithoutNewlines(menu: Menu)
    requires forall i :: 0 <= i < |menu.options| ==> '\n' !in menu.options[i].key && '\n' !in menu.options[i].name
    ensures forall e :: e in DisplayedEntries(menu) ==> '\n' !in e.key && '\n' !in e.name
  {
    var sorted := SortBy(menu.options, EntryKey);
    SortByPermutation(menu.options, EntryKey);
    forall e | e in sorted + GlobalOptions
      ensures '\n' !in e.key && '\n' !in e.name
    {
      if e in sorted {
        assert e in multiset(menu.options);
      }
    }
    ShownSubset(sorted + GlobalOptions, menu.includeUp);
  }

  /** A menu line holds a newline only if its key or name does. */
  lemma MenuLinesWithoutNewlines(s: Options)
    requires forall e :: e in s ==> '\n' !in e.key && '\n' !in e.name
    ensures forall i :: 0 <= i < |s| ==> '\n' !in MenuLines(s)[i]
  {
    forall i | 0 <= i < |s|
      ensures '\n' !in MenuLines(s)[i]
    {
      var e := s[i];
      assert e in s;
      assert '\n' !in "[" && '\n' !in "]: ";
      assert MenuLines(s)[i] == "[" + e.key + "]: " + e.name;
    }
  }

  lemma {:induction false} ShownSubset(s: Options, includeUp: bool)
    ensures forall e :: e in Shown(s, includeUp) ==> e in s
  {
    if s != [] {
      ShownSubset(s[1..], includeUp);
    }
  }

  /**
   * With the up item, `get_ui` lists every own option exactly once, in
   * ascending key order, followed by "u" and then "q".
   */
  lemma DisplayedWithUp(menu: Menu)
    requires menu.includeUp
    ensures var shown := DisplayedEntries(menu);
      var n := |menu.options|;
      && |shown| == n + 2
      && multiset(shown[..n]) == multiset(menu.options)
      && SortedBy(shown[..n], EntryKey)
      && shown[n..] == GlobalOptions
  {
    var sorted := SortBy(menu.options, EntryKey);
    ShownAll(sorted + GlobalOptions);
    SortByPermutation(menu.options, EntryKey);
    SortBySorted(menu.options, EntryKey);
    assert (sorted + GlobalOptions)[..|menu.options|] == sorted;
  }

  /** Without the up item, an option is shown as often as it is given, unless its key is "u". */
  lemma {:induction false} ShownCount(s: Options)
    ensures forall e :: multiset(Shown(s, false))[e] == if e.key == "u" then 0 else multiset(s)[e]
  {
    if s != [] {
      ShownCount(s[1..]);
      assert s == [s[0]] + s[1..];
    }
  }

  /**
   * Without the up item, the lines before "q" are exactly the own options whose
   * key is not "u", each as often as given, in ascending key order; no line has
   * key "u", and "q" comes last.
   */
  lemma DisplayedWithoutUp(menu: Menu)
    requires !menu.includeUp
    ensures var shown := DisplayedEntries(menu);
      && |shown| >= 1 && shown[|shown| - 1] == Entry("q", "quit", Quit)
      && (forall i :: 0 <= i < |shown| ==> shown[i].key != "u")
      && (forall e :: e in menu.options && e.key != "u" ==> e in shown)
      && (forall e :: e in shown[..|shown| - 1] ==> e in menu.options)
      && (forall e :: multiset(shown[..|shown| - 1])[e] == if e.key == "u" then 0 else multiset(menu.options)[e])
      && SortedBy(shown[..|shown| - 1], EntryKey)
  {
    var sorted := SortBy(menu.options, EntryKey);
    ShownAppend(sorted, GlobalOptions, false);
    assert Shown(GlobalOptions, false) == [Entry("q", "quit", Quit)];
    ShownWithoutUp(sorted + GlobalOptions);
    SortByPermutation(menu.options, EntryKey);
    forall e | e in menu.options
      ensures e in sorted + GlobalOptions
    {
      assert e in multiset(menu.options);
    }
    SortBySorted(menu.options, EntryKey);
    ShownSorted(sorted);
    var shown := DisplayedEntries(menu);
    assert shown[..|shown| - 1] == Shown(sorted, false);
    ShownCount(sorted);
    ShownSubset(sorted, false);
    forall e | e in sorted
      ensures e in menu.options
    {
      assert e in multiset(sorted);
    }
  }

  /** Leaving out options keeps the rest in key order. */
  lemma {:induction false} ShownSorted(s: Options)
    requires SortedBy(s, EntryKey)
    ensures SortedBy(Shown(s, false), EntryKey)
  {
    if s != [] {
      assert SortedBy(s[1..], EntryKey);
      ShownSorted(s[1..]);
      ShownSubset(s[1..], false);
      forall e | e in Shown(s[1..], false)
        ensures LessEq(s[0].key, e.key)
      {
        var k :| 0 <= k < |s[1..]| && s[1..][k] == e;
        assert s[k + 1] == e;
      }
    }
  }

  // ---------------------------------------------------------------------
  // get_options
  // ---------------------------------------------------------------------

  /** `str(i + 1).rjust(4)`: the key of the i-th listed item. */
  function IndexKey(i: nat): (r: string)
    ensures |r| >= 4
    ensures LStrip(r) == NatToString(i + 1)
  {
    LStripRJust(NatToString(i + 1), 4);
    RJust(NatToString(i + 1), 4)
  }

  /** An index key starts with padding or with a digit. */
  lemma IndexKeyFirst(i: nat)
    ensures IndexKey(i)[0] == ' ' || IsDigit(IndexKey(i)[0])
  {
    var d := NatToString(i + 1);
    if 4 <= |d| {
      assert IndexKey(i) == d;
    }
  }

  /** Distinct positions get distinct keys, and none of them is "sp". */
  lemma IndexKeysDistinct(i: nat, j: nat)
    ensures i != j ==> IndexKey(i) != IndexKey(j)
    ensures IndexKey(i) != "sp"
  {
    if IndexKey(i) == IndexKey(j) {
      NatToStringInjective(i + 1, j + 1);
    }
    assert LStrip("sp") == "sp";
    assert NatToString(i + 1)[0] != 's';
  }

  /** The "Shuffle play" entry that heads a playlist menu. */
  const ShuffleEntry := Entry("sp", "Shuffle play", ShufflePlay)

  /** The entry that plays track `i`. */
  function TrackEntry(tracks: seq<Track>, i: nat): Entry
    requires i < |tracks|
  {
    Entry(IndexKey(i), FormatTrack(tracks[i]), PlayTrack(i))
  }

  /** The options of a selected playlist: shuffle play first, then one entry per track. */
  ghost predicate IsTrackMenu(opts: Options, tracks: seq<Track>)
  {
    && |opts| == |tracks| + 1
    && opts[0] == ShuffleEntry
    && forall i :: 0 <= i < |tracks| ==> opts[i + 1] == TrackEntry(tracks, i)
  }

  /** `PlayListSelected.get_options`: "sp" for shuffle play, then the tracks keyed 1..n. */
  method PlayListSelectedOptions(playlist: LoadedPlaylist) returns (results: Options)
    ensures IsTrackMenu(results, playlist.tracks)
    ensures DistinctKeys(results)
  {
    var tracks := playlist.tracks;
    results := Put([], ShuffleEntry);
    for i := 0 to |tracks|
      invariant |results| == i + 1 && results[0] == ShuffleEntry
      invariant forall j :: 0 <= j < i ==> results[j + 1] == TrackEntry(tracks, j)
      invariant DistinctKeys(results)
    {
      var e := TrackEntry(tracks, i);
      TrackKeyIsNew(results, tracks, i);
      PutNewKey(results, e);
      AppendNewKey(results, e);
      TrackMenuGrows(results, tracks, i);
      results := Put(results, e);
    }
  }

  /** Appending the next track's entry extends a track menu built that far. */
  lemma TrackMenuGrows(results: Options, tracks: seq<Track>, i: nat)
    requires i < |tracks| && |results| == i + 1
    requires forall j :: 0 <= j < i ==> results[j + 1] == TrackEntry(tracks, j)
    ensures forall j :: 0 <= j < i + 1 ==> (results + [TrackEntry(tracks, i)])[j + 1] == TrackEntry(tracks, j)
  {
  }

  /** The next track's key is not yet in a track menu built that far. */
  lemma TrackKeyIsNew(results: Options, tracks: seq<Track>, i: nat)
    requires i < |tracks| && |results| == i + 1 && results[0] == ShuffleEntry
    requires forall j :: 0 <= j < i ==> results[j + 1] == TrackEntry(tracks, j)
    ensures forall k :: 0 <= k < |results| ==> results[k].key != TrackEntry(tracks, i).key
  {
    forall k | 0 <= k < |results|
      ensures results[k].key != IndexKey(i)
    {
      if k == 0 {
        IndexKeysDistinct(i, i);
      } else {
        assert results[(k - 1) + 1] == TrackEntry(tracks, k - 1);
        IndexKeysDistinct(i, k - 1);
      }
    }
  }

  /** With their padding stripped, the keys of a playlist menu are "sp" and the track numbers. */
  lemma TrackMenuStrippedKey(opts: Options, tracks: seq<Track>, j: nat)
    requires IsTrackMenu(opts, tracks) && j < |opts|
    ensures j == 0 ==> LStrip(opts[j].key) == "sp"
    ensures j > 0 ==> LStrip(opts[j].key) == NatToString(j)
  {
    if j == 0 {
      assert LStrip("sp") == "sp";
    } else {
      assert opts[(j - 1) + 1] == TrackEntry(tracks, j - 1);
    }
  }

  /** Track `i`'s entry is the only one whose stripped key is the number `i + 1`. */
  lemma TrackNumberUnique(opts: Options, tracks: seq<Track>, i: nat, j: nat)
    requires IsTrackMenu(opts, tracks) && i < |tracks| && j < |opts|
    ensures LStrip(opts[j].key) == NatToString(i + 1) <==> j == i + 1
  {
    TrackMenuStrippedKey(opts, tracks, j);
    var p := NatToString(i + 1);
    if j == 0 {
      assert p[0] != 's';
    } else if NatToString(j) == p {
      NatToStringInjective(j, i + 1);
    }
  }

  /** Typing a track's number (without the padding) in a playlist menu plays that track. */
  lemma SelectTrackByNumber(opts: Options, tracks: seq<Track>, i: nat)
    requires IsTrackMenu(opts, tracks) && DistinctKeys(opts) && i < |tracks|
    ensures MatchSpec(opts, NatToString(i + 1)) == Some(PlayTrack(i))
  {
    var p := NatToString(i + 1);
    if FirstPassing(opts, KeyEquals(p)).Some? {
      TrackNumberAsKey(opts, tracks, i);
    } else {
      TrackNumberStripped(opts, tracks, i);
    }
  }

  /** From track 1000 on, the number is the key itself. */
  lemma TrackNumberAsKey(opts: Options, tracks: seq<Track>, i: nat)
    requires IsTrackMenu(opts, tracks) && DistinctKeys(opts) && i < |tracks|
    requires FirstPassing(opts, KeyEquals(NatToString(i + 1))).Some?
    ensures MatchSpec(opts, NatToString(i + 1)) == Some(PlayTrack(i))
  {
    var p := NatToString(i + 1);
    FirstPassingIn(opts, KeyEquals(p));
    var k :| 0 <= k < |opts| && opts[k] == FirstPassing(opts, KeyEquals(p)).value && Passes(opts[k], KeyEquals(p));
    assert opts[k].key == p;
    assert k == i + 1 by {
      assert LStrip(p) == p;
      TrackNumberUnique(opts, tracks, i, k);
    }
    assert opts[k].dest == PlayTrack(i) by {
      assert opts[i + 1] == TrackEntry(tracks, i);
    }
    assert opts[k].key == Lower(p) by {
      LowerDigits(p);
    }
    MatchExactKey(opts, p, k);
  }

  /** Below track 1000, the key is the number padded with spaces, found by stripping them. */
  lemma TrackNumberStripped(opts: Options, tracks: seq<Track>, i: nat)
    requires IsTrackMenu(opts, tracks) && DistinctKeys(opts) && i < |tracks|
    requires FirstPassing(opts, KeyEquals(NatToString(i + 1))).None?
    ensures MatchSpec(opts, NatToString(i + 1)) == Some(PlayTrack(i))
  {
    var p := NatToString(i + 1);
    LowerDigits(p);
    FirstPassingNone(opts, KeyEquals(p));
    forall j | 0 <= j < i + 1
      ensures LStrip(opts[j].key) != p
    {
      TrackNumberUnique(opts, tracks, i, j);
    }
    TrackNumberUnique(opts, tracks, i, i + 1);
    assert opts[i + 1] == TrackEntry(tracks, i);
    MatchStrippedKey(opts, p, i + 1);
  }

  /** The same holds for the response as the menu receives it: no global option claims a number. */
  lemma RespondTrackNumber(opts: Options, tracks: seq<Track>, i: nat, header: string, includeUp: bool)
    requires IsTrackMenu(opts, tracks) && DistinctKeys(opts) && i < |tracks|
    ensures IsValidResponse(Menu(header, opts, includeUp), NatToString(i + 1)) == Some(PlayTrack(i))
  {
    var p := NatToString(i + 1);
    SelectTrackByNumber(opts, tracks, i);
    LowerDigits(p);
    FirstCharAbsent("..", p);
    FirstCharAbsent("quit", p);
    LocalOptionsDecide(Menu(header, opts, includeUp), p);
  }

  /** A string holds no occurrence of `p` when it lacks `p`'s first character. */
  lemma {:induction false} FirstCharAbsent(s: string, p: string)
    requires p != [] && p[0] !in s
    ensures !Contains(s, p)
  {
    if s != [] {
      assert s[0] != p[0];
      FirstCharAbsent(s[1..], p);
    }
  }

  /** Typing "s" or "sp" in a playlist menu shuffle-plays it. */
  lemma ShufflePlayByPrefix(opts: Options, tracks: seq<Track>, response: string, header: string, includeUp: bool)
    requires IsTrackMenu(opts, tracks) && DistinctKeys(opts)
    requires response == "s" || response == "sp"
    ensures IsValidResponse(Menu(header, opts, includeUp), response) == Some(ShufflePlay)
  {
    assert Lower(response) == response && response[0] == 's';
    forall j | 0 <= j < |opts| && j != 0
      ensures opts[j].key != response && LStrip(opts[j].key) != response && !StartsWith(opts[j].key, response)
    {
      assert opts[(j - 1) + 1] == TrackEntry(tracks, j - 1);
      TrackMenuStrippedKey(opts, tracks, j);
      IndexKeyFirst(j - 1);
      assert NatToString(j)[0] != 's';
    }
    assert LStrip("sp") == "sp";
    if response == "sp" {
      MatchExactKey(opts, response, 0);
    } else {
      MatchUniquePrefix(opts, response, 0);
    }
    FirstCharAbsent("..", response);
    FirstCharAbsent("quit", response);
    LocalOptionsDecide(Menu(header, opts, includeUp), response);
  }

  function PlaylistName(p: Playlist): string
  {
    p.name
  }

  /** The container entries the overview lists: those with a name and a link, in container order. */
  function Listable(playlists: seq<Playlist>): (r: seq<Playlist>)
    ensures forall p :: p in r ==> p.name != "" && p.link.Some?
  {
    if playlists == [] then []
    else
      var rest := Listable(playlists[1..]);
      if playlists[0].name != "" && playlists[0].link.Some? then [playlists[0]] + rest else rest
  }

  lemma {:induction false} ListableMembers(playlists: seq<Playlist>)
    ensures forall p :: p in Listable(playlists) <==> p in playlists && p.name != "" && p.link.Some?
    ensures forall p :: multiset(Listable(playlists))[p] == (if p.name != "" && p.link.Some? then multiset(playlists)[p] else 0)
  {
    if playlists != [] {
      ListableMembers(playlists[1..]);
      assert forall p :: p in playlists <==> p == playlists[0] || p in playlists[1..];
      assert playlists == [playlists[0]] + playlists[1..];
    }
  }

  /** The playlists the overview lists, in its order: the listable ones sorted by name. */
  function OverviewPlaylists(playlists: seq<Playlist>): (r: seq<Playlist>)
    ensures forall i :: 0 <= i < |r| ==> r[i].name != "" && r[i].link.Some?
  {
    var listable := Listable(playlists);
    SortByPermutation(listable, PlaylistName);
    MultisetMembers(SortBy(listable, PlaylistName), listable);
    SortBy(listable, PlaylistName)
  }

  /**
   * The overview lists exactly the container entries with a name and a link,
   * each as often as it occurs, in ascending name order.
   */
  lemma OverviewOrder(playlists: seq<Playlist>)
    ensures var r := OverviewPlaylists(playlists);
      && (forall p :: p in r <==> p in playlists && p.name != "" && p.link.Some?)
      && (forall p :: multiset(r)[p] == if p.name != "" && p.link.Some? then multiset(playlists)[p] else 0)
      && SortedBy(r, PlaylistName)
  {
    var listable := Listable(playlists);
    SortByPermutation(listable, PlaylistName);
    SortBySorted(listable, PlaylistName);
    ListableMembers(playlists);
    MultisetMembers(SortBy(listable, PlaylistName), listable);
  }

  /** Two sequences with the same multiset have the same members. */
  lemma MultisetMembers<T>(a: seq<T>, b: seq<T>)
    requires multiset(a) == multiset(b)
    ensures forall x :: x in a <==> x in b
  {
    forall x
      ensures x in a <==> x in b
    {
      assert x in a <==> x in multiset(a);
      assert x in b <==> x in multiset(b);
    }
  }

  /** `PlayListOverview.get_options`: the listable playlists sorted by name, keyed 1..n. */
  method PlayListOverviewOptions(playlists: seq<Playlist>) returns (results: Options)
    ensures var listed := OverviewPlaylists(playlists);
      && |results| == |listed|
      && forall i :: 0 <= i < |listed| ==>
           results[i] == Entry(IndexKey(i), listed[i].link.value.name, OpenPlaylist(listed[i].link.value))
    ensures DistinctKeys(results)
  {
    results := NumberedPlaylists(OverviewPlaylists(playlists));
  }

  /** One option per linked playlist, keyed by its position counted from 1. */
  method NumberedPlaylists(listed: seq<Playlist>) returns (results: Options)
    requires forall i :: 0 <= i < |listed| ==> listed[i].link.Some?
    ensures |results| == |listed|
    ensures forall i :: 0 <= i < |listed| ==>
      results[i] == Entry(IndexKey(i), listed[i].link.value.name, OpenPlaylist(listed[i].link.value))
    ensures DistinctKeys(results)
  {
    results := [];
    for i := 0 to |listed|
      invariant |results| == i
      invariant forall j :: 0 <= j < i ==>
        results[j] == Entry(IndexKey(j), listed[j].link.value.name, OpenPlaylist(listed[j].link.value))
      invariant DistinctKeys(results)
    {
      var linked := listed[i].link.value;
      var e := Entry(IndexKey(i), linked.name, OpenPlaylist(linked));
      IndexKeyIsNew(results, i);
      PutNewKey(results, e);
      AppendNewKey(results, e);
      results := Put(results, e);
    }
  }

  /** Options keyed 1..i by position do not yet use the key of position i. */
  lemma IndexKeyIsNew(results: Options, i: nat)
    requires |results| == i && forall j :: 0 <= j < i ==> results[j].key == IndexKey(j)
    ensures forall k :: 0 <= k < |results| ==> results[k].key != IndexKey(i)
  {
    forall k | 0 <= k < |results|
      ensures results[k].key != IndexKey(i)
    {
      IndexKeysDistinct(i, k);
    }
  }

}
