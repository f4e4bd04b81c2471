/** The end-to-end run of cypress/integration/tv-shows.spec.js, replayed on
    the store: every test starts from a reseed, and what each test observes
    follows from the contracts of Store, Handlers and Shows. The seed file is
    not part of this model, so the run takes any seed of eight records whose
    record "1" is the one the tests expect. */
module Scenario {
  import opened Json
  import opened Shows
  import opened Handlers
  import opened Store

  const BlackMirror: Show := map[
    "id" := Str("1"),
    "title" := Str("Black Mirror"),
    "poster" := Str("/img/black-mirror.jpg"),
    "release" := Str("2011-12-04T00:00:00Z"),
    "genres" := Arr([Str("drama"), Str("sci-fi"), Str("thriller")])]

  const SiliconValley: Show := map[
    "title" := Str("Silicon Valley"),
    "release" := Str("2014-04-06T00:00:00Z"),
    "genres" := Arr([Str("comedy")])]

  /** Black Mirror with the `abstract` member the update test adds. */
  function WithAbstract(summary: string): (s: Show)
    ensures HasId(s, "1") && "abstract" in s && s["abstract"] == Str(summary)
  {
    BlackMirror["abstract" := Str(summary)]
  }

  /** What every test may assume of the seed: eight records, the first
      carrying id "1" being Black Mirror. */
  predicate SeedAsTested(seed: seq<Show>) {
    |seed| == 8 && Handlers.Get(seed, "1") == Found(BlackMirror)
  }

  /** `beforeEach`: a store, reseeded. */
  method Seeded(seed: seq<Show>) returns (store: ShowStore)
    ensures fresh(store) && store.seed == seed && store.shows == seed
  {
    store := new ShowStore(seed);
    var r := store.Reseed();
    assert r.Status() == 204;
  }

  /** should load 8 TV shows */
  method LoadsEight(seed: seq<Show>)
    requires SeedAsTested(seed)
  {
    var store := Seeded(seed);
    var r := store.List(None);
    assert r.Listed? && |r.shows| == 8;
  }

  /** should load a TV show by its id */
  method LoadsById(seed: seq<Show>)
    requires SeedAsTested(seed)
  {
    var store := Seeded(seed);
    var r := store.Get("1");
    assert r == Found(BlackMirror);
  }

  /** The query of the genre test splits into its two genres. */
  lemma SciFiOrHorror()
    ensures Split("sci-fi,horror") == ["sci-fi", "horror"]
  {
    var pieces := ["sci-fi", "horror"];
    assert Join(pieces[1..]) == "horror";
    assert Join(pieces) == "sci-fi" + [','] + "horror" == "sci-fi,horror";
    SplitJoin(pieces);
  }

  /** should load TV shows by their genres: Black Mirror, a sci-fi show, is
      among the records listed for `sci-fi,horror`. */
  method LoadsByGenres(seed: seq<Show>)
    requires SeedAsTested(seed)
  {
    var store := Seeded(seed);
    var r := store.List(Some("sci-fi,horror"));
    SciFiOrHorror();
    var query := ["sci-fi", "horror"];
    var i :| IsFirstMatch(seed, "1", i) && seed[i] == BlackMirror;
    assert Str("sci-fi") in GenresOf(BlackMirror);
    SharesGenreIff(BlackMirror, query);
    assert GenreTest(query)(seed[i]);
    assert i in KeptIndices(seed, GenreTest(query));
    assert BlackMirror in r.shows;
  }

  /** should create a new TV show; `generated` stands for the uuid, which is
      non-empty and not an id of the seed. */
  method CreatesOne(seed: seq<Show>, generated: string)
    requires SeedAsTested(seed)
    requires generated != "" && NoMatch(seed, generated)
  {
    var store := Seeded(seed);
    var r := store.Create(Some(SiliconValley), generated);
    assert r.Status() == 201 && r.show == WithId(SiliconValley, generated);
    assert r.show["id"] == Str(generated) && r.show["title"] == Str("Silicon Valley");
    assert r.show["genres"] == Arr([Str("comedy")]);
    assert |store.shows| == 9;
    GetAfterCreate(seed, Some(SiliconValley), generated);
    r := store.Get(generated);
    assert r.Found? && r.show["id"] == Str(generated);
  }

  /** should update a TV show */
  method UpdatesOne(seed: seq<Show>, summary: string)
    requires SeedAsTested(seed)
  {
    var store := Seeded(seed);
    var updated := WithAbstract(summary);
    var r := store.Update("1", Some(updated));
    assert r.Status() == 204;
    GetAfterUpdate(seed, "1", Some(updated));
    r := store.Get("1");
    assert r == Found(updated) && r.show["abstract"] == Str(summary);
  }

  /** should delete a TV show */
  method DeletesOne(seed: seq<Show>)
    requires SeedAsTested(seed)
  {
    var store := Seeded(seed);
    var r := store.Delete("1");
    assert r.Status() == 204;
    r := store.List(None);
    assert r.Listed? && |r.shows| == 7;
  }
}
