/** The TV-show records held by the store and the pure expressions the route
    handlers evaluate over them: lookup by id (`find`), splitting of the
    `genres` query parameter (`split(',')`) and the genre filter
    (`filter` with lodash `intersection`). */
module Shows {
  import opened Json

  datatype Option<T> = None | Some(value: T)

  /** A TV-show record: an open JSON object. The seed's records carry `id`,
      `title`, `poster`, `release` and `genres`, and clients may add any
      other member. */
  type Show = map<string, Json>

  // ---------------------------------------------------------------------
  // Lookup by id
  // ---------------------------------------------------------------------

  /** `tvShow.id === id`: the record has an `id` member that is exactly this
      string (an id stored as a number or missing never matches). */
  predicate HasId(show: Show, id: string): (b: bool)
    ensures b ==> "id" in show && show["id"].Str? && show["id"].s == id
    ensures "id" in show && !show["id"].Str? ==> !b
  {
    "id" in show && show["id"] == Str(id)
  }

  /** No record of `shows` carries `id`. */
  predicate NoMatch(shows: seq<Show>, id: string) {
    forall j :: 0 <= j < |shows| ==> !HasId(shows[j], id)
  }

  /** `i` is where a front-to-back search for `id` stops: the record there
      carries `id` and none before it does. */
  predicate IsFirstMatch(shows: seq<Show>, id: string, i: int) {
    && 0 <= i < |shows|
    && HasId(shows[i], id)
    && forall j :: 0 <= j < i ==> !HasId(shows[j], id)
  }

  /** The position `tvShows.find(tvShow => tvShow.id === id)` returns the
      record of, or None when `find` yields `undefined`. */
  function FirstMatch(shows: seq<Show>, id: string): (r: Option<nat>)
    ensures r.Some? ==> IsFirstMatch(shows, id, r.value)
    ensures r.None? <==> NoMatch(shows, id)
  {
    if |shows| == 0 then None
    else if HasId(shows[0], id) then Some(0)
    else match FirstMatch(shows[1..], id)
      case None => None
      case Some(k) => Some(k + 1)
  }

  /** There is at most one first match, so FirstMatch is determined by it. */
  lemma FirstMatchIsUnique(shows: seq<Show>, id: string, i: int)
    requires IsFirstMatch(shows, id, i)
    ensures FirstMatch(shows, id) == Some(i)
  {
  }

  /** Replacing the first match by a record without the id moves the
      first match to the next record carrying the id, if there is one. */
  lemma FirstMatchPastReplaced(shows: seq<Show>, id: string, i: int, v: Show)
    requires IsFirstMatch(shows, id, i) && !HasId(v, id)
    ensures FirstMatch(shows[i := v], id) ==
      match FirstMatch(shows[i + 1..], id)
      case None => None
      case Some(k) => Some(i + 1 + k)
  {
    var after := shows[i := v];
    var rest := shows[i + 1..];
    match FirstMatch(rest, id)
    case None =>
      forall j | i < j < |after| ensures !HasId(after[j], id) {
        assert rest[j - i - 1] == shows[j];
      }
    case Some(k) =>
      assert rest[k] == shows[i + 1 + k];
      forall j | i < j < i + 1 + k ensures !HasId(after[j], id) {
        assert rest[j - i - 1] == shows[j];
      }
      FirstMatchIsUnique(after, id, i + 1 + k);
  }

  // ---------------------------------------------------------------------
  // The `genres` query parameter
  // ---------------------------------------------------------------------

  /** JavaScript `s.split(',')`: the pieces between the commas of `s`, in
      order. There is always at least one piece (the empty string gives one
      empty piece) and no piece holds a comma. */
  function Split(s: string): (parts: seq<string>)
    ensures |parts| >= 1
    ensures forall i :: 0 <= i < |parts| ==> ',' !in parts[i]
  {
    if |s| == 0 then [""]
    else
      var rest := Split(s[1..]);
      if s[0] == ',' then [""] + rest
      else [[s[0]] + rest[0]] + rest[1..]
  }

  /** A query with n commas splits into n + 1 pieces. */
  lemma {:induction false} SplitPieceCount(s: string)
    ensures |Split(s)| == multiset(s)[','] + 1
  {
    if |s| > 0 {
      SplitPieceCount(s[1..]);
      assert s == [s[0]] + s[1..];
    }
  }

  /** `parts.join(',')`, the inverse of Split. */
  function Join(parts: seq<string>): string
    requires |parts| >= 1
  {
    if |parts| == 1 then parts[0] else parts[0] + [','] + Join(parts[1..])
  }

  /** Splitting and joining again gives back the query string. */
  lemma {:induction false} JoinSplit(s: string)
    ensures Join(Split(s)) == s
  {
    if |s| > 0 {
      var rest := Split(s[1..]);
      JoinSplit(s[1..]);
      if s[0] != ',' {
        JoinPrepend(s[0], rest);
      }
    }
  }

  /** Prefixing the first piece with a character prefixes the joined string. */
  lemma JoinPrepend(c: char, parts: seq<string>)
    requires |parts| >= 1
    ensures Join([[c] + parts[0]] + parts[1..]) == [c] + Join(parts)
  {
  }

  /** Joining comma-free pieces and splitting again gives back the pieces. */
  lemma {:induction false} SplitJoin(parts: seq<string>)
    requires |parts| >= 1
    requires forall i :: 0 <= i < |parts| ==> ',' !in parts[i]
    ensures Split(Join(parts)) == parts
  {
    if |parts| == 1 {
      SplitCommaFree(parts[0], "");
      assert parts[0] + "" == parts[0];
    } else {
      var tail := [','] + Join(parts[1..]);
      SplitJoin(parts[1..]);
      assert tail[1..] == Join(parts[1..]);
      assert Split(tail) == [""] + parts[1..];
      SplitCommaFree(parts[0], tail);
      assert parts[0] + [','] + Join(parts[1..]) == parts[0] + tail;
      assert parts[0] + "" == parts[0];
    }
  }

  /** A comma-free prefix only lengthens the first piece. */
  lemma {:induction false} SplitCommaFree(p: string, s: string)
    requires ',' !in p
    ensures Split(p + s) == [p + Split(s)[0]] + Split(s)[1..]
  {
    var parts := Split(s);
    if |p| == 0 {
      assert p + s == s;
      assert p + parts[0] == parts[0];
    } else {
      var q := p[1..];
      SplitCommaFree(q, s);
      var inner := Split(q + s);
      assert inner[0] == q + parts[0] && inner[1..] == parts[1..];
      var ps := p + s;
      assert ps[0] == p[0] && ps[1..] == q + s;
      assert Split(ps) == [[p[0]] + inner[0]] + inner[1..];
      assert [p[0]] + (q + parts[0]) == p + parts[0];
    }
  }

  // ---------------------------------------------------------------------
  // The genre filter
  // ---------------------------------------------------------------------

  /** The list the filter intersects: the record's `genres` member when it is
      an array; anything else counts as empty, so a record without an array
      of genres never matches. */
  function GenresOf(show: Show): (genres: seq<Json>)
    ensures !("genres" in show && show["genres"].Arr?) ==> genres == []
    ensures "genres" in show && show["genres"].Arr? ==> genres == show["genres"].items
  {
    if "genres" in show && show["genres"].Arr? then show["genres"].items else []
  }

  /** lodash `intersection(xs, ys)` of a record's genres with the query
      pieces: the distinct values of `xs` equal to some piece of `ys`. */
  function Intersection(xs: seq<Json>, ys: seq<string>): (r: seq<Json>)
    ensures forall v :: v in r <==> v in xs && v.Str? && v.s in ys
    ensures forall i, j :: 0 <= i < j < |r| ==> r[i] != r[j]
  {
    if |xs| == 0 then []
    else
      var init := Intersection(xs[..|xs| - 1], ys);
      var v := xs[|xs| - 1];
      assert xs == xs[..|xs| - 1] + [v];
      if v.Str? && v.s in ys && v !in init then init + [v] else init
  }

  /** `intersection(tvShow.genres, genres).length > 0`. */
  predicate SharesGenre(show: Show, query: seq<string>): (b: bool)
    ensures b ==> "genres" in show && show["genres"].Arr? && |query| > 0
  {
    var r := Intersection(GenresOf(show), query);
    assert |r| > 0 ==> r[0] in r;
    |Intersection(GenresOf(show), query)| > 0
  }

  /** A record passes the filter exactly when one of its genres is one of
      the query pieces. */
  lemma SharesGenreIff(show: Show, query: seq<string>)
    ensures SharesGenre(show, query) <==> exists g :: g in query && Str(g) in GenresOf(show)
  {
    var r := Intersection(GenresOf(show), query);
    if |r| > 0 {
      assert r[0] in r;
    }
  }

  /** `Array.prototype.filter`: the elements of `s` that `keep` accepts. */
  function Filter<T(==)>(s: seq<T>, keep: T -> bool): (r: seq<T>)
    ensures |r| <= |s|
    ensures forall x :: x in r ==> x in s && keep(x)
  {
    if |s| == 0 then []
    else
      var n := |s| - 1;
      assert s == s[..n] + [s[n]];
      Filter(s[..n], keep) + (if keep(s[n]) then [s[n]] else [])
  }

  /** The positions of the elements `keep` accepts, in increasing order:
      every such position, and only those. */
  ghost function KeptIndices<T>(s: seq<T>, keep: T -> bool): (idx: seq<nat>)
    ensures forall k :: 0 <= k < |idx| ==> idx[k] < |s| && keep(s[idx[k]])
    ensures forall k, l :: 0 <= k < l < |idx| ==> idx[k] < idx[l]
    ensures forall j :: 0 <= j < |s| && keep(s[j]) ==> j in idx
  {
    if |s| == 0 then []
    else
      var n := |s| - 1;
      KeptIndices(s[..n], keep) + (if keep(s[n]) then [n] else [])
  }

  /** Filter keeps exactly the accepted elements, in their order: its k-th
      element is the one at the k-th accepted position. */
  lemma {:induction false} FilterSelectsKeptIndices<T>(s: seq<T>, keep: T -> bool)
    ensures |Filter(s, keep)| == |KeptIndices(s, keep)|
    ensures forall k :: 0 <= k < |KeptIndices(s, keep)| ==>
              Filter(s, keep)[k] == s[KeptIndices(s, keep)[k]]
  {
    if |s| > 0 {
      var n := |s| - 1;
      FilterSelectsKeptIndices(s[..n], keep);
    }
  }

  /** The test the genre filter applies to each record. */
  function GenreTest(query: seq<string>): Show -> bool {
    show => SharesGenre(show, query)
  }

  /** `tvShows.filter(tvShow => intersection(tvShow.genres, genres).length > 0)`:
      exactly the records sharing a genre with `query`, in stored order. */
  function FilterByGenres(shows: seq<Show>, query: seq<string>): (r: seq<Show>)
    ensures var idx := KeptIndices(shows, GenreTest(query));
      && |r| == |idx|
      && forall k :: 0 <= k < |idx| ==> r[k] == shows[idx[k]]
  {
    FilterSelectsKeptIndices(shows, GenreTest(query));
    Filter(shows, GenreTest(query))
  }
}
