/**
 * The content-information service's local parts: its 24-hour response cache,
 * the year and genre buckets its fallback answers are chosen from, and the
 * fallback visual theme. The remote model calls are not modelled.
 */
module Gemini {
  import opened Wrappers
  import Text

  /** 24 hours, in milliseconds. */
  const CacheDuration: int := 24 * 60 * 60 * 1000

  datatype CacheEntry = CacheEntry(data: string, timestamp: int)

  /** A cached entry is served while it is strictly younger than 24 hours. */
  predicate Fresh(e: CacheEntry, now: int) {
    now - e.timestamp < CacheDuration
  }

  /** clearOldCache deletes an entry only when it is strictly older than 24 hours. */
  predicate Stale(e: CacheEntry, now: int) {
    now - e.timestamp > CacheDuration
  }

  /** The entries clearOldCache keeps. */
  function Kept(entries: map<string, CacheEntry>, now: int): (r: map<string, CacheEntry>)
    ensures forall k :: k in r <==> k in entries && !Stale(entries[k], now)
    ensures forall k :: k in r ==> r[k] == entries[k]
  {
    map k | k in entries && !Stale(entries[k], now) :: entries[k]
  }

  /** An entry exactly 24 hours old is neither served nor deleted. */
  lemma BoundaryEntry(e: CacheEntry, now: int)
    requires now - e.timestamp == CacheDuration
    ensures !Fresh(e, now) && !Stale(e, now)
  {
  }

  /** Every entry is served, deleted, or (at the exact boundary) neither; never both. */
  lemma FreshAndStaleDisjoint(e: CacheEntry, now: int)
    ensures !(Fresh(e, now) && Stale(e, now))
    ensures Fresh(e, now) || Stale(e, now) || now - e.timestamp == CacheDuration
  {
  }

  class ResponseCache {
    var entries: map<string, CacheEntry>

    constructor ()
      ensures entries == map[]
    {
      entries := map[];
    }

    /** The cache check at the start of each request: the cached data when present and fresh. */
    method Lookup(key: string, now: int) returns (r: Option<string>)
      ensures r.Some? <==> key in entries && Fresh(entries[key], now)
      ensures r.Some? ==> r.value == entries[key].data
    {
      if key in entries && now - entries[key].timestamp < CacheDuration {
        r := Some(entries[key].data);
      } else {
        r := None;
      }
    }

    /** Saving a parsed response with the current time. */
    method Store(key: string, data: string, now: int)
      modifies this
      ensures entries == old(entries)[key := CacheEntry(data, now)]
    {
      entries := entries[key := CacheEntry(data, now)];
    }

    /** clearOldCache: visits every entry and deletes the stale ones. */
    method ClearOldCache(now: int)
      modifies this
      ensures entries == Kept(old(entries), now)
    {
      var pending := entries.Keys;
      ghost var original := entries;
      while pending != {}
        invariant pending <= original.Keys
        invariant forall k :: k in entries <==> k in original && (k in pending || !Stale(original[k], now))
        invariant forall k :: k in entries ==> entries[k] == original[k]
        decreases |pending|
      {
        var k :| k in pending;
        if now - entries[k].timestamp > CacheDuration {
          entries := entries - {k};
        }
        pending := pending - {k};
      }
    }
  }

  /** A response stored now is served from the cache for the next 24 hours and survives clearing until then. */
  lemma StoredIsServed(entries: map<string, CacheEntry>, key: string, data: string, storedAt: int, now: int)
    requires storedAt <= now < storedAt + CacheDuration
    ensures var e := entries[key := CacheEntry(data, storedAt)];
      Fresh(e[key], now) && key in Kept(e, now) && Kept(e, now)[key].data == data
  {
  }

  // ---------------------------------------------------------- year buckets

  /** The era getYearBasedInfo places a production in. */
  datatype Era = Contemporary | Tens | Noughties | Nineties | Classic

  /** The year as parseInt reads it; None stands for NaN, which every comparison rejects. */
  function EraOf(year: Option<int>): (r: Era)
    ensures year.None? ==> r == Classic
    ensures year.Some? && year.value >= 2020 ==> r == Contemporary
    ensures year.Some? && 2010 <= year.value < 2020 ==> r == Tens
    ensures year.Some? && 2000 <= year.value < 2010 ==> r == Noughties
    ensures year.Some? && 1990 <= year.value < 2000 ==> r == Nineties
    ensures year.Some? && year.value < 1990 ==> r == Classic
  {
    if year.None? then Classic
    else if year.value >= 2020 then Contemporary
    else if year.value >= 2010 then Tens
    else if year.value >= 2000 then Noughties
    else if year.value >= 1990 then Nineties
    else Classic
  }

  function EraRank(e: Era): nat {
    match e
    case Classic => 0
    case Nineties => 1
    case Noughties => 2
    case Tens => 3
    case Contemporary => 4
  }

  /** A later year never lands in an older era. */
  lemma EraMonotone(a: int, b: int)
    requires a <= b
    ensures EraRank(EraOf(Some(a))) <= EraRank(EraOf(Some(b)))
  {
  }

  /** The `context` sentence of each era. */
  function EraContext(e: Era): string {
    match e
    case Contemporary => "Producción contemporánea con tecnología de última generación."
    case Tens => "Producción de la década de 2010, era de transición digital."
    case Noughties => "Producción de principios del siglo XXI, era de innovación tecnológica."
    case Nineties => "Producción de los años 90, época dorada del cine comercial."
    case Classic => "Producción clásica con técnicas cinematográficas tradicionales."
  }

  // -------------------------------------------------------------- genres

  /** The genres with their own fallback information. */
  const InfoGenres: set<string> := {"accion", "comedia", "drama", "terror", "ciencia ficcion"}

  /** The replacement of one lower-case accented vowel; every other character is kept. */
  function PlainVowel(c: char): (r: char)
    ensures c !in "áéíóú" ==> r == c
    ensures r !in "áéíóú"
  {
    if c == 'á' then 'a' else if c == 'é' then 'e' else if c == 'í' then 'i'
    else if c == 'ó' then 'o' else if c == 'ú' then 'u' else c
  }

  /** `genre?.toLowerCase().replace(/[áéíóú]/g, …)`; None stands for an undefined genre. */
  function NormalizeGenre(genre: Option<string>): (r: Option<string>)
    ensures genre.None? <==> r.None?
    ensures r.Some? ==> |r.value| == |genre.value|
    ensures r.Some? ==> forall i :: 0 <= i < |r.value| ==> r.value[i] == PlainVowel(Text.LowerChar(genre.value[i]))
  {
    match genre
    case None => None
    case Some(g) =>
      var lower := Text.Lower(g);
      Some(seq(|lower|, i requires 0 <= i < |lower| => PlainVowel(lower[i])))
  }

  /** The genre whose fallback information getGenreBasedInfo returns; unknown genres get drama's. */
  function InfoGenre(genre: Option<string>): (r: string)
    ensures r in InfoGenres
    ensures NormalizeGenre(genre).Some? && NormalizeGenre(genre).value in InfoGenres ==> r == NormalizeGenre(genre).value
    ensures (NormalizeGenre(genre).None? || NormalizeGenre(genre).value !in InfoGenres) ==> r == "drama"
  {
    var n := NormalizeGenre(genre);
    if n.Some? && n.value in InfoGenres then n.value else "drama"
  }

  /** Accents and case do not matter for the genre information. */
  lemma AccentedGenreInfo()
    ensures InfoGenre(Some("Acción")) == "accion"
  {
    AccionNormalized("Acción");
  }

  lemma AccionNormalized(g: string)
    requires |g| == 6 && g[0] == 'A' && g[1] == 'c' && g[2] == 'c' && g[3] == 'i' && g[4] == 'ó' && g[5] == 'n'
    ensures NormalizeGenre(Some(g)) == Some("accion")
  {
    var n := NormalizeGenre(Some(g)).value;
    assert n[0] == 'a' && n[1] == 'c' && n[2] == 'c' && n[3] == 'i' && n[4] == 'o' && n[5] == 'n';
    assert n == "accion";
  }

  lemma UpperCaseGenreInfo()
    ensures InfoGenre(Some("TERROR")) == "terror"
  {
    TerrorNormalized("TERROR");
  }

  lemma TerrorNormalized(g: string)
    requires |g| == 6 && g[0] == 'T' && g[1] == 'E' && g[2] == 'R' && g[3] == 'R' && g[4] == 'O' && g[5] == 'R'
    ensures NormalizeGenre(Some(g)) == Some("terror")
  {
    var n := NormalizeGenre(Some(g)).value;
    assert n[0] == 't' && n[1] == 'e' && n[2] == 'r' && n[3] == 'r' && n[4] == 'o' && n[5] == 'r';
    assert n == "terror";
  }

  /** The visual themes getFallbackVisualTheme knows; anything else gets the default theme. */
  datatype Theme = TerrorTheme | ComedyTheme | ActionTheme | DefaultTheme

  /** getFallbackVisualTheme looks the genre up lower-cased only, without removing accents. */
  function FallbackTheme(genre: Option<string>): (r: Theme)
    ensures genre.Some? && Text.Lower(genre.value) == "terror" ==> r == TerrorTheme
    ensures genre.Some? && Text.Lower(genre.value) == "comedia" ==> r == ComedyTheme
    ensures genre.Some? && Text.Lower(genre.value) == "accion" ==> r == ActionTheme
    ensures r == DefaultTheme <==> genre.None? || Text.Lower(genre.value) !in {"terror", "comedia", "accion"}
  {
    if genre.None? then DefaultTheme
    else
      var g := Text.Lower(genre.value);
      if g == "terror" then TerrorTheme
      else if g == "comedia" then ComedyTheme
      else if g == "accion" then ActionTheme
      else DefaultTheme
  }

  /** "Acción" gets the action information but the default theme, because only the information lookup strips accents. */
  lemma AccentSplitsInfoAndTheme()
    ensures InfoGenre(Some("Acción")) == "accion"
    ensures FallbackTheme(Some("Acción")) == DefaultTheme
  {
    AccentedGenreInfo();
    assert Text.Lower("Acción") == "acción";
  }
}
