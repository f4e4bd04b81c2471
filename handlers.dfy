/** What each route handler of app.js does to the list of TV shows and what it
    answers, as functions of the list before the request. The store class in
    module Store is proved to change its list exactly as these say. */
module Handlers {
  import opened Json
  import opened Shows

  /** The answer a handler sends; Status is its HTTP status code. */
  datatype Response =
    | Listed(shows: seq<Show>)   // 200 with a JSON array
    | Found(show: Show)          // 200 with a JSON object
    | Created(show: Show)        // 201 with a JSON object
    | NoContent                  // 204, no body
    | BadRequest                 // 400, no body
    | NotFound                   // 404, no body
  {
    function Status(): (code: int)
      ensures code == 200 <==> Listed? || Found?
      ensures code == 201 <==> Created?
      ensures code == 204 <==> NoContent?
      ensures code == 400 <==> BadRequest?
      ensures code == 404 <==> NotFound?
      ensures code >= 400 <==> BadRequest? || NotFound?
    {
      match this
      case Listed(_) => 200
      case Found(_) => 200
      case Created(_) => 201
      case NoContent => 204
      case BadRequest => 400
      case NotFound => 404
    }
  }

  /** The list after a handler has run, and the handler's answer. */
  datatype Step = Step(shows: seq<Show>, response: Response)

  /** `!body || isEmpty(body)`: no body, or an object without members. */
  predicate MissingOrEmpty(body: Option<Show>): (b: bool)
    ensures b <==> body.None? || forall k :: k !in body.value
  {
    assert body.Some? && |body.value| > 0 ==> exists k :: k in body.value by {
      if body.Some? && |body.value| > 0 {
        var k :| k in body.value.Keys;
      }
    }
    body.None? || |body.value| == 0
  }

  /** GET /tv-shows[?genres=a,b]: with no `genres` parameter, or an empty
      one, the whole list in stored order; otherwise the records sharing a
      genre with the comma-separated pieces, in stored order. */
  function List(shows: seq<Show>, genres: Option<string>): (r: Response)
    ensures r.Listed?
    ensures genres.None? || genres.value == "" ==> r.shows == shows
    ensures genres.Some? && genres.value != "" ==>
      var idx := KeptIndices(shows, GenreTest(Split(genres.value)));
      && |r.shows| == |idx|
      && forall k :: 0 <= k < |idx| ==> r.shows[k] == shows[idx[k]]
  {
    if genres.None? || genres.value == "" then Listed(shows)
    else Listed(FilterByGenres(shows, Split(genres.value)))
  }

  /** GET /tv-shows/:id: the first record carrying `id`, or 404. */
  function Get(shows: seq<Show>, id: string): (r: Response)
    ensures r.Found? || r.NotFound?
    ensures r.NotFound? <==> NoMatch(shows, id)
    ensures r.Found? ==> exists i :: IsFirstMatch(shows, id, i) && r.show == shows[i]
  {
    match FirstMatch(shows, id)
    case None => NotFound
    case Some(i) => Found(shows[i])
  }

  /** `{ id: generated, ...payload }`: the payload's members, plus an `id`
      that is the generated one only when the payload has none of its own. */
  function WithId(payload: Show, generated: string): (r: Show)
    ensures r.Keys == payload.Keys + {"id"}
    ensures forall k :: k in payload ==> r[k] == payload[k]
    ensures "id" !in payload ==> r["id"] == Str(generated)
  {
    map["id" := Str(generated)] + payload
  }

  /** POST /tv-shows: 400 and no change for a missing or empty body;
      otherwise the body with an id appended at the end, and 201 with the
      last record. */
  function Create(shows: seq<Show>, body: Option<Show>, generated: string): (s: Step)
    ensures MissingOrEmpty(body) ==> s == Step(shows, BadRequest)
    ensures !MissingOrEmpty(body) ==>
      && |s.shows| == |shows| + 1
      && s.shows[..|shows|] == shows
      && s.shows[|shows|] == WithId(body.value, generated)
      && s.response == Created(s.shows[|s.shows| - 1])
  {
    if MissingOrEmpty(body) then Step(shows, BadRequest)
    else
      var after := shows + [WithId(body.value, generated)];
      Step(after, Created(after[|after| - 1]))
  }

  /** PUT /tv-shows/:id: 404 when no record carries `id` (whatever the body),
      then 400 for a missing or empty body, both without change; otherwise
      the first record carrying `id` is replaced by the body as it is, and
      204. */
  function Update(shows: seq<Show>, id: string, body: Option<Show>): (s: Step)
    ensures NoMatch(shows, id) ==> s == Step(shows, NotFound)
    ensures !NoMatch(shows, id) && MissingOrEmpty(body) ==> s == Step(shows, BadRequest)
    ensures !NoMatch(shows, id) && !MissingOrEmpty(body) ==>
      && s.response == NoContent
      && |s.shows| == |shows|
      && exists i :: IsFirstMatch(shows, id, i) && s.shows[i] == body.value
           && forall j :: 0 <= j < |shows| && j != i ==> s.shows[j] == shows[j]
  {
    match FirstMatch(shows, id)
    case None => Step(shows, NotFound)
    case Some(i) =>
      if MissingOrEmpty(body) then Step(shows, BadRequest)
      else Step(shows[i := body.value], NoContent)
  }

  /** DELETE /tv-shows/:id: 404 and no change when no record carries `id`;
      otherwise the first record carrying it is cut out, the others keep
      their order, and 204. */
  function Delete(shows: seq<Show>, id: string): (s: Step)
    ensures NoMatch(shows, id) ==> s == Step(shows, NotFound)
    ensures !NoMatch(shows, id) ==>
      && s.response == NoContent
      && exists i :: IsFirstMatch(shows, id, i) && s.shows == shows[..i] + shows[i + 1..]
  {
    match FirstMatch(shows, id)
    case None => Step(shows, NotFound)
    case Some(i) => Step(shows[..i] + shows[i + 1..], NoContent)
  }

  // ---------------------------------------------------------------------
  // How the operations relate
  // ---------------------------------------------------------------------

  /** Every failed request leaves the list as it was. */
  lemma ErrorsChangeNothing(shows: seq<Show>, id: string, body: Option<Show>, generated: string)
    ensures Create(shows, body, generated).response.Status() >= 400 ==>
              Create(shows, body, generated).shows == shows
    ensures Update(shows, id, body).response.Status() >= 400 ==> Update(shows, id, body).shows == shows
    ensures Delete(shows, id).response.Status() >= 400 ==> Delete(shows, id).shows == shows
  {
  }

  /** Appending never hides a record: every id found before is found, at
      the same record, after a create. */
  lemma CreateKeepsLookups(shows: seq<Show>, body: Option<Show>, generated: string, id: string)
    requires !NoMatch(shows, id)
    ensures Get(Create(shows, body, generated).shows, id) == Get(shows, id)
  {
  }

  /** A created record is found by the generated id when that id is fresh
      and the body brings no id of its own. */
  lemma GetAfterCreate(shows: seq<Show>, body: Option<Show>, generated: string)
    requires !MissingOrEmpty(body) && "id" !in body.value
    requires NoMatch(shows, generated)
    ensures Get(Create(shows, body, generated).shows, generated) == Found(WithId(body.value, generated))
  {
  }

  /** Deleting by the fresh id undoes a create. */
  lemma DeleteUndoesCreate(shows: seq<Show>, body: Option<Show>, generated: string)
    requires !MissingOrEmpty(body) && "id" !in body.value
    requires NoMatch(shows, generated)
    ensures Delete(Create(shows, body, generated).shows, generated) == Step(shows, NoContent)
  {
  }

  /** Ids are not kept unique: a body whose own id is already taken is
      stored under that id, and lookups still find the older record. */
  lemma CreateCanDuplicateId(shows: seq<Show>, body: Option<Show>, generated: string, id: string)
    requires !MissingOrEmpty(body) && HasId(body.value, id)
    requires !NoMatch(shows, id)
    ensures var after := Create(shows, body, generated).shows;
      && HasId(after[|after| - 1], id)
      && Get(after, id) == Get(shows, id)
      && exists i :: 0 <= i < |after| - 1 && HasId(after[i], id)
  {
  }

  /** An update whose body keeps the id is seen by the next lookup. */
  lemma GetAfterUpdate(shows: seq<Show>, id: string, body: Option<Show>)
    requires !NoMatch(shows, id) && !MissingOrEmpty(body)
    requires HasId(body.value, id)
    ensures Get(Update(shows, id, body).shows, id) == Found(body.value)
  {
  }

  /** An update whose body carries another id (or none) moves the lookup
      past the replaced record at `i`: it answers as a lookup among the
      records after it, which is 404 when none of them carries `id`. */
  lemma UpdateCanRename(shows: seq<Show>, id: string, body: Option<Show>, i: nat)
    requires IsFirstMatch(shows, id, i) && !MissingOrEmpty(body)
    requires !HasId(body.value, id)
    ensures Get(Update(shows, id, body).shows, id) == Get(shows[i + 1..], id)
  {
    FirstMatchIsUnique(shows, id, i);
    assert Update(shows, id, body).shows == shows[i := body.value];
    FirstMatchPastReplaced(shows, id, i, body.value);
  }

  /** A delete removes exactly one record, the first carrying `id`: as
      multisets, the list after plus that record is the list before. */
  lemma {:induction false} DeleteRemovesOne(shows: seq<Show>, id: string)
    requires !NoMatch(shows, id)
    ensures var i := FirstMatch(shows, id).value;
      && |Delete(shows, id).shows| == |shows| - 1
      && multiset(Delete(shows, id).shows) + multiset{shows[i]} == multiset(shows)
  {
    var i := FirstMatch(shows, id).value;
    assert shows == shows[..i] + [shows[i]] + shows[i + 1..];
  }
}
