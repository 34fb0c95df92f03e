/** `_normalize_db_url` of app.py: the clean-up applied to the DATABASE_URL environment
    variable before it becomes SQLALCHEMY_DATABASE_URI. */
module DbUrl {
  import opened Wrappers
  import opened PyText

  /** The URL scheme that older hosting platforms hand out. */
  const LegacyScheme: string := "postgres://"
  /** The scheme SQLAlchemy accepts for PostgreSQL. */
  const Scheme: string := "postgresql://"

  /** `_normalize_db_url(url)`. The emptiness test runs before `strip()`, so a value made
      only of whitespace comes back as `""` rather than `None`. */
  function NormalizeDbUrl(url: Option<string>): (r: Option<string>)
    ensures r == None <==> url == None || url == Some("")
    ensures r.Some? ==> Stripped(r.value) && !StartsWith(r.value, LegacyScheme)
  {
    if url == None || url == Some("") then None
    else
      var s := Strip(url.value);
      if StartsWith(s, LegacyScheme) then
        var rest := s[|LegacyScheme|..];
        var t := Scheme + rest;
        assert t[0] == 'p' && t[8] == 'q' && LegacyScheme[8] == ':';
        assert t[|t| - 1] == if rest == [] then '/' else s[|s| - 1];
        Some(t)
      else Some(s)
  }

  /** Any other URL is only stripped. */
  lemma NormalizeKeepsOtherUrls(url: string)
    requires url != "" && !StartsWith(Strip(url), LegacyScheme)
    ensures NormalizeDbUrl(Some(url)) == Some(Strip(url))
  {
  }

  /** A `postgres://` URL keeps everything after the scheme and gets the `postgresql://` scheme. */
  lemma NormalizeRewritesLegacyScheme(url: string, rest: string)
    requires Strip(url) == LegacyScheme + rest
    ensures NormalizeDbUrl(Some(url)) == Some(Scheme + rest)
  {
    var s := Strip(url);
    assert StartsWith(s, LegacyScheme) && s[|LegacyScheme|..] == rest;
  }

  /** A value made only of whitespace is not treated as missing: it becomes `""`. */
  lemma NormalizeBlankIsEmpty(url: string)
    requires url != "" && Blank(url)
    ensures NormalizeDbUrl(Some(url)) == Some("")
  {
    StripEmptyIff(url);
  }

  /** Normalising a non-empty normalised URL changes nothing. The empty result of a blank
      value is the exception: normalised again it becomes `None`. */
  lemma NormalizeIdempotent(url: Option<string>)
    requires NormalizeDbUrl(url) != Some("")
    ensures NormalizeDbUrl(NormalizeDbUrl(url)) == NormalizeDbUrl(url)
  {
    var r := NormalizeDbUrl(url);
    if r.Some? {
      StripOfStripped(r.value);
    }
  }
}
