/** The process-wide list of TV shows of app.js (`let tvShows`) and the route
    handlers that read and change it in place. Each method changes the list
    exactly as the matching function of module Handlers says. */
module Store {
  import opened Json
  import opened Shows
  import opened Handlers

  class ShowStore {
    /** The records of the seed file, read at start-up and on every reseed. */
    const seed: seq<Show>
    /** The live list, in stored order. */
    var shows: seq<Show>

    /** Start-up: `let tvShows = require('./tv-shows.json').slice()`. */
    constructor (seed: seq<Show>)
      ensures this.seed == seed && shows == seed
    {
      this.seed := seed;
      shows := seed;
    }

    /** POST /db/seed: the list becomes the seed again, whatever happened to
        it before (so a second reseed changes nothing), and 204. */
    method Reseed() returns (r: Response)
      modifies this
      ensures shows == seed && r == NoContent && r.Status() == 204
    {
      shows := seed;
      r := NoContent;
    }

    /** GET /tv-shows[?genres=a,b]. */
    method List(genres: Option<string>) returns (r: Response)
      ensures r == Handlers.List(shows, genres)
      ensures r.Status() == 200
    {
      if genres.None? || genres.value == "" {
        return Listed(shows);
      }
      var query := Split(genres.value);
      r := Listed(FilterByGenres(shows, query));
    }

    /** GET /tv-shows/:id, through the `getTvShowById` lookup. */
    method Get(id: string) returns (r: Response)
      ensures r == Handlers.Get(shows, id)
      ensures r.Status() == 404 <==> NoMatch(shows, id)
    {
      var found := FirstMatch(shows, id);
      if found.None? {
        return NotFound;
      }
      r := Found(shows[found.value]);
    }

    /** POST /tv-shows, with `generated` standing for the fresh `uuidv1()`. */
    method Create(body: Option<Show>, generated: string) returns (r: Response)
      modifies this
      ensures Step(shows, r) == Handlers.Create(old(shows), body, generated)
    {
      if body.None? || |body.value| == 0 {
        return BadRequest;
      }
      shows := shows + [WithId(body.value, generated)];
      r := Created(shows[|shows| - 1]);
    }

    /** PUT /tv-shows/:id: the lookup runs first, then the body check, then
        the record's slot is overwritten. */
    method Update(id: string, body: Option<Show>) returns (r: Response)
      modifies this
      ensures Step(shows, r) == Handlers.Update(old(shows), id, body)
    {
      var found := FirstMatch(shows, id);
      if found.None? {
        return NotFound;
      }
      if body.None? || |body.value| == 0 {
        return BadRequest;
      }
      var index := found.value;
      shows := shows[index := body.value];
      r := NoContent;
    }

    /** DELETE /tv-shows/:id: `splice(index, 1)` at the record found. */
    method Delete(id: string) returns (r: Response)
      modifies this
      ensures Step(shows, r) == Handlers.Delete(old(shows), id)
    {
      var found := FirstMatch(shows, id);
      if found.None? {
        return NotFound;
      }
      var index := found.value;
      shows := shows[..index] + shows[index + 1..];
      r := NoContent;
    }
  }
}
