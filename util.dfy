/**
 * The formatting and ordering helpers of spoppy/util.py: the one-line texts for
 * a track and an album, and the order in which menu items are listed.
 */
module Util {
  import opened Strings
  import opened Sorting

  datatype Artist = Artist(name: string)

  datatype Track = Track(name: string, artists: seq<Artist>)

  datatype Album = Album(name: string, year: int)

  /** The browse result `format_album` reads: an album and its artist. */
  datatype AlbumBrowse = AlbumBrowse(album: Album, artist: Artist)

  /** The names of the artists that have one, in order. */
  function NamedArtists(artists: seq<Artist>): (r: seq<string>)
    ensures forall i :: 0 <= i < |r| ==> r[i] != ""
  {
    if artists == [] then []
    else if artists[0].name == "" then NamedArtists(artists[1..])
    else [artists[0].name] + NamedArtists(artists[1..])
  }

  /** `'%s by %s' % (track.name, ' & '.join(names of the named artists))`. */
  function FormatTrack(track: Track): (r: string)
    ensures StartsWith(r, track.name + " by ")
    ensures NamedArtists(track.artists) == [] <==> |r| == |track.name| + 4
  {
    track.name + " by " + Join(NamedArtists(track.artists), " & ")
  }

  /** `'%s by %s [%s]' % (album name, artist name, year)`. */
  function FormatAlbum(browse: AlbumBrowse): (r: string)
    ensures StartsWith(r, browse.album.name + " by " + browse.artist.name + " [")
    ensures |r| > |browse.album.name + " by " + browse.artist.name + " ["| + 1 && r[|r| - 1] == ']'
  {
    browse.album.name + " by " + browse.artist.name + " [" + IntToString(browse.album.year) + "]"
  }

  /** Every part of a join occurs in the joined string. */
  lemma {:induction false} JoinContains(parts: seq<string>, sep: string, i: nat)
    requires i < |parts|
    ensures Contains(Join(parts, sep), parts[i])
  {
    var j := Join(parts, sep);
    if |parts| == 1 {
      ContainsAt(j, parts[0], 0);
    } else if i == 0 {
      assert j[..|parts[0]|] == parts[0];
      ContainsAt(j, parts[0], 0);
    } else {
      JoinContains(parts[1..], sep, i - 1);
      var rest := Join(parts[1..], sep);
      ContainsSuffix(parts[0] + sep, rest, parts[i]);
    }
  }

  /** What a suffix contains, the whole string contains. */
  lemma {:induction false} ContainsSuffix(a: string, b: string, p: string)
    requires Contains(b, p)
    ensures Contains(a + b, p)
  {
    if a != [] {
      var s := a + b;
      assert s[1..] == a[1..] + b;
      ContainsSuffix(a[1..], b, p);
      assert s != [] && Contains(s[1..], p);
    } else {
      assert a + b == b;
    }
  }

  /** Each artist with a name shows up in the track line. */
  lemma {:induction false} NamedArtistListed(artists: seq<Artist>, k: nat)
    requires k < |artists| && artists[k].name != ""
    ensures artists[k].name in NamedArtists(artists)
  {
    if k > 0 {
      NamedArtistListed(artists[1..], k - 1);
    }
  }

  /**
   * The track line starts with the track name and " by ", and every artist
   * that has a name occurs after that prefix.
   */
  lemma FormatTrackListsArtists(track: Track, k: nat)
    requires k < |track.artists| && track.artists[k].name != ""
    ensures StartsWith(FormatTrack(track), track.name + " by ")
    ensures Contains(FormatTrack(track)[|track.name| + 4..], track.artists[k].name)
  {
    var names := NamedArtists(track.artists);
    NamedArtistListed(track.artists, k);
    var i :| 0 <= i < |names| && names[i] == track.artists[k].name;
    JoinContains(names, " & ", i);
    assert FormatTrack(track)[|track.name| + 4..] == Join(names, " & ");
  }

  /** Artists without a name are skipped: when no artist has one, the line ends in " by ". */
  lemma {:induction false} FormatTrackUnnamedArtists(track: Track)
    requires forall i :: 0 <= i < |track.artists| ==> track.artists[i].name == ""
    ensures FormatTrack(track) == track.name + " by "
  {
    NoNamedArtists(track.artists);
  }

  lemma {:induction false} NoNamedArtists(artists: seq<Artist>)
    requires forall i :: 0 <= i < |artists| ==> artists[i].name == ""
    ensures NamedArtists(artists) == []
  {
    if artists != [] {
      NoNamedArtists(artists[1..]);
    }
  }

  /** When only the artist at `k` has a name, that name is the only one joined. */
  lemma NamedArtistsSole(a: seq<Artist>, k: nat)
    requires k < |a| && a[k].name != ""
    requires forall i :: 0 <= i < |a| && i != k ==> a[i].name == ""
    ensures NamedArtists(a) == [a[k].name]
  {
    assert a == a[..k] + ([a[k]] + a[k + 1..]);
    NoNamedArtists(a[..k]);
    NoNamedArtists(a[k + 1..]);
    NamedArtistsAppend(a[..k], [a[k]] + a[k + 1..]);
    NamedArtistsCons(a[k], a[k + 1..]);
  }

  /** With one named artist the line is "<name> by <artist>", whatever unnamed artists surround it. */
  lemma FormatTrackSoleArtist(track: Track, k: nat)
    requires k < |track.artists| && track.artists[k].name != ""
    requires forall i :: 0 <= i < |track.artists| && i != k ==> track.artists[i].name == ""
    ensures FormatTrack(track) == track.name + " by " + track.artists[k].name
  {
    NamedArtistsSole(track.artists, k);
  }

  /**
   * With exactly two named artists the line is "<name> by <first> & <second>",
   * in the order the artists are listed.
   */
  lemma FormatTrackTwoArtists(track: Track, i: nat, j: nat)
    requires i < j < |track.artists|
    requires track.artists[i].name != "" && track.artists[j].name != ""
    requires forall k :: 0 <= k < |track.artists| && k != i && k != j ==> track.artists[k].name == ""
    ensures FormatTrack(track) == track.name + " by " + track.artists[i].name + " & " + track.artists[j].name
  {
    var a := track.artists;
    assert a == a[..j] + a[j..];
    NamedArtistsSole(a[..j], i);
    NamedArtistsSole(a[j..], 0);
    NamedArtistsAppend(a[..j], a[j..]);
    var names := NamedArtists(a);
    assert names == [a[i].name, a[j].name];
    assert names[1..] == [a[j].name];
    var joined := Join(names, " & ");
    assert |names| == 2 && names[0] == a[i].name;
    assert Join(names[1..], " & ") == a[j].name;
    assert joined == names[0] + " & " + Join(names[1..], " & ");
    assert joined == a[i].name + " & " + a[j].name;
    assert FormatTrack(track) == (track.name + " by ") + joined;
  }

  /**
   * A named first artist followed by at least one more named artist: the line
   * is "<name> by <first> & " followed by the join of the others, so names are
   * separated by " & " and kept in artist order.
   */
  lemma FormatTrackNamedHead(track: Track)
    requires track.artists != [] && track.artists[0].name != ""
    requires NamedArtists(track.artists[1..]) != []
    ensures FormatTrack(track) == track.name + " by " + track.artists[0].name + " & "
      + Join(NamedArtists(track.artists[1..]), " & ")
  {
    var a := track.artists;
    assert a == [a[0]] + a[1..];
    NamedArtistsCons(a[0], a[1..]);
    var names := NamedArtists(a);
    assert names[1..] == NamedArtists(a[1..]);
  }

  /** The named artists of a list with a head: the head's name if it has one, then the rest's. */
  lemma NamedArtistsCons(x: Artist, t: seq<Artist>)
    ensures NamedArtists([x] + t) == (if x.name == "" then [] else [x.name]) + NamedArtists(t)
  {
    assert ([x] + t)[0] == x && ([x] + t)[1..] == t;
  }

  lemma {:induction false} NamedArtistsAppend(a: seq<Artist>, b: seq<Artist>)
    ensures NamedArtists(a + b) == NamedArtists(a) + NamedArtists(b)
  {
    if a == [] {
      assert a + b == b;
    } else {
      var head := if a[0].name == "" then [] else [a[0].name];
      var x, y := NamedArtists(a[1..]), NamedArtists(b);
      NamedArtistsAppend(a[1..], b);
      assert a + b == [a[0]] + (a[1..] + b);
      NamedArtistsCons(a[0], a[1..] + b);
      assert a == [a[0]] + a[1..];
      NamedArtistsCons(a[0], a[1..]);
      assert head + (x + y) == (head + x) + y;
    }
  }

  /**
   * The album line starts with "<album> by <artist> [", ends with "]", and for a
   * year that is not negative the text between the brackets reads back as the year.
   */
  lemma FormatAlbumYear(browse: AlbumBrowse)
    ensures var prefix := browse.album.name + " by " + browse.artist.name + " [";
      var r := FormatAlbum(browse);
      && StartsWith(r, prefix)
      && |r| > |prefix| && r[|r| - 1] == ']'
      && (0 <= browse.album.year ==>
            AllDigits(r[|prefix|..|r| - 1]) && ParseDigits(r[|prefix|..|r| - 1]) == browse.album.year)
  {
    var prefix := browse.album.name + " by " + browse.artist.name + " [";
    var r := FormatAlbum(browse);
    var y := IntToString(browse.album.year);
    assert r == prefix + y + "]";
    assert r[|prefix|..|r| - 1] == y;
    if 0 <= browse.album.year {
      ParseNatToString(browse.album.year);
    }
  }

  /** A `(key, value)` pair with `value.destination`, as `sorted_menu_items` reads it. */
  datatype MenuItem<D> = MenuItem(key: string, destination: D)

  function ItemKey<D>(item: MenuItem<D>): string
  {
    item.key
  }

  /** The items whose destination is one of the global responses, in order. */
  function GlobalPart<D(==)>(s: seq<MenuItem<D>>, all: set<D>): seq<MenuItem<D>>
  {
    if s == [] then []
    else GlobalPart(s[..|s| - 1], all) + (if s[|s| - 1].destination in all then [s[|s| - 1]] else [])
  }

  /** The items whose destination is not a global response, in order. */
  function LocalPart<D(==)>(s: seq<MenuItem<D>>, all: set<D>): seq<MenuItem<D>>
  {
    if s == [] then []
    else LocalPart(s[..|s| - 1], all) + (if s[|s| - 1].destination in all then [] else [s[|s| - 1]])
  }

  /** The two parts split the items: together they hold every item exactly as often. */
  lemma {:induction false} PartsPermutation<D>(s: seq<MenuItem<D>>, all: set<D>)
    ensures multiset(LocalPart(s, all)) + multiset(GlobalPart(s, all)) == multiset(s)
  {
    if s != [] {
      PartsPermutation(s[..|s| - 1], all);
      assert s == s[..|s| - 1] + [s[|s| - 1]];
    }
  }

  /** Each part holds only items of its kind. */
  lemma {:induction false} PartsKinds<D>(s: seq<MenuItem<D>>, all: set<D>)
    ensures forall i :: 0 <= i < |GlobalPart(s, all)| ==> GlobalPart(s, all)[i].destination in all
    ensures forall i :: 0 <= i < |LocalPart(s, all)| ==> LocalPart(s, all)[i].destination !in all
  {
    if s != [] {
      PartsKinds(s[..|s| - 1], all);
    }
  }

  /** In a key-sorted sequence, the last key bounds every earlier one. */
  lemma LastKeyBounds<D>(s: seq<MenuItem<D>>)
    requires s != [] && SortedBy(s, ItemKey)
    ensures forall x | x in multiset(s[..|s| - 1]) :: LessEq(ItemKey(x), ItemKey(s[|s| - 1]))
  {
    forall x | x in multiset(s[..|s| - 1])
      ensures LessEq(ItemKey(x), ItemKey(s[|s| - 1]))
    {
      var k :| 0 <= k < |s| - 1 && s[..|s| - 1][k] == x;
      assert s[k] == x;
    }
  }

  /** The global part of a key-sorted sequence is key-sorted. */
  lemma {:induction false} GlobalPartSorted<D>(s: seq<MenuItem<D>>, all: set<D>)
    requires SortedBy(s, ItemKey)
    ensures SortedBy(GlobalPart(s, all), ItemKey)
  {
    if s != [] {
      var init := s[..|s| - 1];
      assert SortedBy(init, ItemKey);
      GlobalPartSorted(init, all);
      PartsPermutation(init, all);
      LastKeyBounds(s);
      PartSortedAppend(GlobalPart(init, all), init, s[|s| - 1]);
    }
  }

  /** The local part of a key-sorted sequence is key-sorted. */
  lemma {:induction false} LocalPartSorted<D>(s: seq<MenuItem<D>>, all: set<D>)
    requires SortedBy(s, ItemKey)
    ensures SortedBy(LocalPart(s, all), ItemKey)
  {
    if s != [] {
      var init := s[..|s| - 1];
      assert SortedBy(init, ItemKey);
      LocalPartSorted(init, all);
      PartsPermutation(init, all);
      LastKeyBounds(s);
      PartSortedAppend(LocalPart(init, all), init, s[|s| - 1]);
    }
  }

  lemma PartSortedAppend<D>(p: seq<MenuItem<D>>, init: seq<MenuItem<D>>, last: MenuItem<D>)
    requires SortedBy(p, ItemKey)
    requires multiset(p) <= multiset(init)
    requires forall x | x in multiset(init) :: LessEq(ItemKey(x), ItemKey(last))
    ensures SortedBy(p + [last], ItemKey)
  {
    forall i | 0 <= i < |p|
      ensures LessEq(ItemKey(p[i]), ItemKey(last))
    {
      assert p[i] in multiset(p);
    }
  }

  /**
   * `sorted_menu_items(items)`: the items in key order, except that those whose
   * destination is a global response (`responses.ALL`, passed as `all`) are
   * held back and come after all the others.
   */
  method SortedMenuItems<D(==)>(items: seq<MenuItem<D>>, all: set<D>) returns (out: seq<MenuItem<D>>)
    ensures out == LocalPart(SortBy(items, ItemKey), all) + GlobalPart(SortBy(items, ItemKey), all)
    ensures multiset(out) == multiset(items)
    ensures forall i, j :: 0 <= i < j < |out| && out[i].destination in all ==> out[j].destination in all
    ensures forall i, j :: 0 <= i < j < |out| && (out[i].destination in all <==> out[j].destination in all) ==>
      LessEq(out[i].key, out[j].key)
  {
    var sorted := SortBy(items, ItemKey);
    var globalItems: seq<MenuItem<D>> := [];
    var yielded: seq<MenuItem<D>> := [];
    for i := 0 to |sorted|
      invariant globalItems == GlobalPart(sorted[..i], all)
      invariant yielded == LocalPart(sorted[..i], all)
    {
      assert sorted[..i + 1][..i] == sorted[..i];
      if sorted[i].destination in all {
        globalItems := globalItems + [sorted[i]];
      } else {
        yielded := yielded + [sorted[i]];
      }
    }
    assert sorted[..|sorted|] == sorted;
    out := yielded + globalItems;
    SortByPermutation(items, ItemKey);
    SortBySorted(items, ItemKey);
    PartsPermutation(sorted, all);
    PartsKinds(sorted, all);
    GlobalPartSorted(sorted, all);
    LocalPartSorted(sorted, all);
  }
}
