/**
 * The short-link table (backend/api/models.py): one row per recipe that has
 * been given a short code, and the generator of fresh codes.
 */
module ShortLinks {
  import opened Wrappers
  import opened Entities

  /** Codes are never shorter than this. */
  const MinCodeLength := 3
  /** A UUID written in hexadecimal with its dashes removed. */
  const HexLength := 32

  datatype ShortLink = ShortLink(recipe: RecipeId, linkUri: string)

  predicate IsHexDigit(c: char) { '0' <= c <= '9' || 'a' <= c <= 'f' }

  /** The dash-free lower-case hex form of a random UUID (the randomness is left to the caller). */
  predicate IsUuidHex(hex: string) {
    |hex| == HexLength && forall i :: 0 <= i < |hex| ==> IsHexDigit(hex[i])
  }

  /** Python's `s[:n]`: a prefix, or the whole string when `n` is past its end. */
  function Take(s: string, n: nat): (r: string)
    ensures r <= s && |r| == if n <= |s| then n else |s|
  {
    if n <= |s| then s[..n] else s
  }

  /** Some prefix at least `MinCodeLength` long is not yet a code: the generator then stops. */
  predicate HasFreePrefix(hex: string, existing: set<string>) {
    exists n :: MinCodeLength <= n <= |hex| && hex[..n] !in existing
  }

  /**
   * The shortest prefix of `hex`, of length at least `MinCodeLength`, that is
   * not an existing code: start at `MinCodeLength` and grow by one character
   * while the prefix is taken.
   */
  method LinkUriDefault(hex: string, existing: set<string>) returns (code: string)
    requires IsUuidHex(hex)
    requires HasFreePrefix(hex, existing)
    ensures MinCodeLength <= |code| <= HexLength && code == hex[..|code|]
    ensures code !in existing
    ensures forall m :: MinCodeLength <= m < |code| ==> hex[..m] in existing
    ensures hex[..MinCodeLength] !in existing ==> |code| == MinCodeLength
  {
    ghost var free :| MinCodeLength <= free <= |hex| && hex[..free] !in existing;
    var n := MinCodeLength;
    while Take(hex, n) in existing
      invariant MinCodeLength <= n <= free
      invariant forall m :: MinCodeLength <= m < n ==> hex[..m] in existing
      decreases free - n
    {
      n := n + 1;
    }
    code := Take(hex, n);
  }

  function Codes(links: seq<ShortLink>): (s: set<string>)
    ensures forall l :: l in links ==> l.linkUri in s
    ensures forall c :: c in s ==> exists l :: l in links && l.linkUri == c
  {
    set l | l in links :: l.linkUri
  }

  /** One link per recipe (one-to-one) and every code used once (unique). */
  predicate UniqueLinks(links: seq<ShortLink>) {
    forall i, j :: 0 <= i < j < |links| ==>
      links[i].recipe != links[j].recipe && links[i].linkUri != links[j].linkUri
  }

  /** The row whose code is `code`, if any (`ShortLink.objects.get(link_uri=code)`). */
  function FindByCode(links: seq<ShortLink>, code: string): (r: Option<ShortLink>)
    ensures r.Some? ==> r.value in links && r.value.linkUri == code
    ensures r.None? ==> forall l :: l in links ==> l.linkUri != code
  {
    if links == [] then None
    else if links[0].linkUri == code then Some(links[0])
    else FindByCode(links[1..], code)
  }

  /** The row of recipe `recipe`, if any (`recipe.shortlink`). */
  function FindByRecipe(links: seq<ShortLink>, recipe: RecipeId): (r: Option<ShortLink>)
    ensures r.Some? ==> r.value in links && r.value.recipe == recipe
    ensures r.None? ==> forall l :: l in links ==> l.recipe != recipe
  {
    if links == [] then None
    else if links[0].recipe == recipe then Some(links[0])
    else FindByRecipe(links[1..], recipe)
  }

  /** With unique codes, looking a row's code up finds that very row. */
  lemma FindByCodeOfRow(links: seq<ShortLink>, l: ShortLink)
    requires UniqueLinks(links) && l in links
    ensures FindByCode(links, l.linkUri) == Some(l)
  {
    var found := FindByCode(links, l.linkUri).value;
    var i :| 0 <= i < |links| && links[i] == l;
    var j :| 0 <= j < |links| && links[j] == found;
    assert i == j;
  }

  /** Adding a row with a recipe and a code not yet present keeps both constraints. */
  lemma AppendKeepsUnique(links: seq<ShortLink>, l: ShortLink)
    requires UniqueLinks(links)
    requires FindByRecipe(links, l.recipe).None? && l.linkUri !in Codes(links)
    ensures UniqueLinks(links + [l])
  {
  }
}
