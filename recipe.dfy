/**
 * The derived values of a recipe: its slug, its servings breakdown, its
 * sorted instructions, its link list, its routes, its identity test, its
 * export options and the url given to a new recipe. The cookbook urls that
 * the slug depends on are parameters.
 */
module Recipes {
  import opened Common

  /** An instruction step; only its position is read here. */
  datatype Step = Step(position: int, text: string)

  /**
   * The recipe fields the derivations read. `documentUrl` is the value of
   * `getDocumentUrl()` for the recipe.
   */
  datatype Recipe = Recipe(
    url: Option<string>,
    documentUrl: Option<string>,
    externalUrls: seq<string>,
    imageUrls: seq<string>,
    servings: Option<string>,
    instructions: Option<seq<Step>>)

  /** `imageUrl`: the first image url, if there is one. */
  function ImageUrl(r: Recipe): (image: Option<string>)
    ensures image.None? <==> r.imageUrls == []
    ensures image.Some? ==> image.value == r.imageUrls[0]
  {
    if |r.imageUrls| > 0 then Some(r.imageUrls[0]) else None
  }

  // ---------------------------------------------------------------------
  // Slug
  // ---------------------------------------------------------------------

  /** `s.replaceAll('/', '-')`. */
  function SlashesToDashes(s: string): (r: string)
    ensures |r| == |s| && '/' !in r
    ensures forall i :: 0 <= i < |s| ==> r[i] == (if s[i] == '/' then '-' else s[i])
  {
    seq(|s|, i requires 0 <= i < |s| => if s[i] == '/' then '-' else s[i])
  }

  /** The characters that JavaScript's `.` does not match. */
  predicate IsLineTerminator(c: char) {
    c == '\n' || c == '\r' || c == '\U{2028}' || c == '\U{2029}'
  }

  predicate NoLineTerminatorFrom(s: string, from: nat) {
    forall i :: from <= i < |s| ==> !IsLineTerminator(s[i])
  }

  /**
   * The regular expression `([^#]+)(#.*)?$` matches `s` starting at `start`
   * with capture group 1 equal to `s[start..end]`: the group is a non-empty
   * run of non-`#` characters, after which either the input ends or a `#`
   * follows whose tail reaches the end without a line terminator.
   */
  ghost predicate SlugGroupAt(s: string, start: nat, end: nat) {
    && start < end <= |s|
    && (forall i :: start <= i < end ==> s[i] != '#')
    && (end == |s| || (s[end] == '#' && NoLineTerminatorFrom(s, end + 1)))
  }

  /** The end of the run of non-`#` characters that begins at `i`. */
  function HashFreeRunEnd(s: string, i: nat): (e: nat)
    requires i <= |s|
    ensures i <= e <= |s|
    ensures forall k :: i <= k < e ==> s[k] != '#'
    ensures e == |s| || s[e] == '#'
    decreases |s| - i
  {
    if i == |s| || s[i] == '#' then i else HashFreeRunEnd(s, i + 1)
  }

  /** A match of group 1 at `start` can only end where the run of non-`#` characters ends. */
  lemma SlugGroupEndsAtRunEnd(s: string, start: nat, end: nat)
    requires SlugGroupAt(s, start, end)
    ensures end == HashFreeRunEnd(s, start)
  {
  }

  /**
   * The leftmost match of `([^#]+)(#.*)?$` in `s` at or after `from`, as the
   * span of capture group 1. The greedy `[^#]+` is forced to the end of its
   * run (SlugGroupEndsAtRunEnd), so no backtracking alternative exists.
   */
  function SlugMatchFrom(s: string, from: nat): (m: Option<(nat, nat)>)
    requires from <= |s|
    ensures m.Some? ==> from <= m.value.0 && SlugGroupAt(s, m.value.0, m.value.1)
    ensures m.Some? ==> forall p, q :: from <= p < m.value.0 ==> !SlugGroupAt(s, p, q)
    ensures m.None? ==> forall p, q :: from <= p ==> !SlugGroupAt(s, p, q)
    decreases |s| - from
  {
    if from == |s| then None
    else
      var e := HashFreeRunEnd(s, from);
      if s[from] != '#' && (e == |s| || NoLineTerminatorFrom(s, e + 1)) then Some((from, e))
      else
        assert forall q :: SlugGroupAt(s, from, q) ==> q == e by {
          forall q | SlugGroupAt(s, from, q) ensures q == e { SlugGroupEndsAtRunEnd(s, from, q); }
        }
        SlugMatchFrom(s, from + 1)
  }

  /** `getSlug`: the first capture group of the pattern in the path with `/` turned into `-`. */
  function SlugOfPath(path: string): (slug: Option<string>)
    ensures slug.Some? ==> slug.value != [] && '/' !in slug.value && '#' !in slug.value
  {
    var s := SlashesToDashes(path);
    match SlugMatchFrom(s, 0)
    case None => None
    case Some((start, end)) =>
      assert forall i :: 0 <= i < end - start ==> s[start..end][i] == s[start + i];
      Some(s[start..end])
  }

  /**
   * `slug`: null without a url; otherwise the slug of what follows the
   * remote cookbook url (when that is set and prefixes the url) or else the
   * local cookbook url; null when neither prefixes the url.
   */
  function Slug(url: Option<string>, remoteCookbookUrl: Option<string>, localCookbookUrl: string): (slug: Option<string>)
    ensures !Truthy(url) ==> slug.None?
    ensures slug.Some? ==> slug.value != [] && '/' !in slug.value && '#' !in slug.value
  {
    if !Truthy(url) then None
    else if Truthy(remoteCookbookUrl) && StartsWith(url.value, remoteCookbookUrl.value) then
      SlugOfPath(url.value[|remoteCookbookUrl.value|..])
    else if StartsWith(url.value, localCookbookUrl) then
      SlugOfPath(url.value[|localCookbookUrl|..])
    else None
  }

  /** The remote cookbook is tried first: when it prefixes the url, the local one is never consulted. */
  lemma SlugPrefersRemoteCookbook(url: string, remote: string, local: string)
    requires url != "" && remote != "" && StartsWith(url, remote)
    ensures Slug(Some(url), Some(remote), local) == SlugOfPath(url[|remote|..])
  {
  }

  /** A url under neither cookbook has no slug. */
  lemma SlugOutsideCookbooks(url: string, remote: Option<string>, local: string)
    requires !(Truthy(remote) && StartsWith(url, remote.value)) && !StartsWith(url, local)
    ensures Slug(Some(url), remote, local).None?
  {
  }

  lemma HashFreeRunIsSlugGroup(s: string, i: nat)
    requires i < |s| && s[i] != '#' && NoLineTerminatorFrom(s, 0)
    ensures SlugGroupAt(s, i, HashFreeRunEnd(s, i))
  {
  }

  /**
   * On a path without line terminators the match is the first maximal run
   * of non-`#` characters, and there is none only when every character is `#`.
   */
  lemma {:induction false} SlugMatchIsFirstRun(s: string)
    requires NoLineTerminatorFrom(s, 0)
    ensures SlugMatchFrom(s, 0).None? <==> forall i :: 0 <= i < |s| ==> s[i] == '#'
    ensures SlugMatchFrom(s, 0).Some? ==>
      var (a, b) := SlugMatchFrom(s, 0).value;
      && (forall i :: 0 <= i < a ==> s[i] == '#')
      && a < |s| && s[a] != '#'
      && b == HashFreeRunEnd(s, a)
  {
    var m := SlugMatchFrom(s, 0);
    if m.None? {
      forall i | 0 <= i < |s| ensures s[i] == '#' {
        if s[i] != '#' {
          HashFreeRunIsSlugGroup(s, i);
        }
      }
    } else {
      var (a, b) := m.value;
      forall i | 0 <= i < a ensures s[i] == '#' {
        if s[i] != '#' {
          HashFreeRunIsSlugGroup(s, i);
        }
      }
      SlugGroupEndsAtRunEnd(s, a, b);
    }
  }

  // ---------------------------------------------------------------------
  // New recipe urls
  // ---------------------------------------------------------------------

  /**
   * `newUrl`: the document url (by default the url derived from the
   * collection and the recipe name, given here as `defaultDocumentUrl`) and
   * the resource hash (by default the model's `defaultResourceHash`) joined
   * by `#`.
   */
  function NewUrl(documentUrl: Option<string>, resourceHash: Option<string>, defaultDocumentUrl: string, defaultResourceHash: string): (url: string)
    ensures var document := if documentUrl.Some? then documentUrl.value else defaultDocumentUrl;
      var hash := if resourceHash.Some? then resourceHash.value else defaultResourceHash;
      && |url| == |document| + 1 + |hash|
      && StartsWith(url, document) && url[|document|] == '#' && url[|document| + 1..] == hash
  {
    var document := if documentUrl.Some? then documentUrl.value else defaultDocumentUrl;
    var hash := if resourceHash.Some? then resourceHash.value else defaultResourceHash;
    document + "#" + hash
  }

  /** The position of the last `#` in `s`, if any. */
  function LastHash(s: string): (k: Option<nat>)
    ensures k.Some? ==> k.value < |s| && s[k.value] == '#' && '#' !in s[k.value + 1..]
    ensures k.None? ==> '#' !in s
  {
    if s == [] then None
    else if s[|s| - 1] == '#' then Some(|s| - 1)
    else
      var k := LastHash(s[..|s| - 1]);
      assert s == s[..|s| - 1] + [s[|s| - 1]];
      if k.None? then None
      else
        assert s[k.value + 1..] == s[..|s| - 1][k.value + 1..] + [s[|s| - 1]];
        k
  }

  /** Splits a resource url into its document url and its hash at the last `#`. */
  function SplitResourceUrl(url: string): (parts: Option<(string, string)>)
    ensures parts.Some? ==> url == parts.value.0 + "#" + parts.value.1 && '#' !in parts.value.1
  {
    match LastHash(url)
    case None => None
    case Some(k) => Some((url[..k], url[k + 1..]))
  }

  /** The last `#` of `document + "#" + hash` is the joining one when the hash has none. */
  lemma {:induction false} LastHashOfJoin(document: string, hash: string)
    requires '#' !in hash
    ensures LastHash(document + "#" + hash) == Some(|document|)
    decreases |hash|
  {
    var url := document + "#" + hash;
    if hash != [] {
      var init := hash[..|hash| - 1];
      assert hash[|hash| - 1] in hash;
      assert url[..|url| - 1] == document + "#" + init;
      assert forall c :: c in init ==> c in hash;
      LastHashOfJoin(document, init);
    }
  }

  /**
   * A new url splits back into the document url and the hash it was built
   * from, each the given one or else its default.
   */
  lemma NewUrlSplitsBack(documentUrl: Option<string>, resourceHash: Option<string>, defaultDocumentUrl: string, defaultResourceHash: string)
    requires '#' !in (if resourceHash.Some? then resourceHash.value else defaultResourceHash)
    ensures var document := if documentUrl.Some? then documentUrl.value else defaultDocumentUrl;
      var hash := if resourceHash.Some? then resourceHash.value else defaultResourceHash;
      SplitResourceUrl(NewUrl(documentUrl, resourceHash, defaultDocumentUrl, defaultResourceHash)) == Some((document, hash))
  {
    var document := if documentUrl.Some? then documentUrl.value else defaultDocumentUrl;
    var hash := if resourceHash.Some? then resourceHash.value else defaultResourceHash;
    var url := NewUrl(documentUrl, resourceHash, defaultDocumentUrl, defaultResourceHash);
    assert url == document + "#" + hash;
    LastHashOfJoin(document, hash);
    assert url[..|document|] == document && url[|document| + 1..] == hash;
  }

  /**
   * The slug of a new recipe url in the local cookbook is the document's name
   * inside the cookbook, with `/` turned into `-`.
   */
  lemma {:induction false} SlugOfNewUrl(local: string, name: string, hash: string, remote: Option<string>, defaultDocumentUrl: string, defaultResourceHash: string)
    requires name != [] && '#' !in name && NoLineTerminatorFrom(name, 0) && NoLineTerminatorFrom(hash, 0)
    requires !(Truthy(remote) && StartsWith(local + name + "#" + hash, remote.value))
    ensures Slug(Some(NewUrl(Some(local + name), Some(hash), defaultDocumentUrl, defaultResourceHash)), remote, local)
      == Some(SlashesToDashes(name))
  {
    var url := NewUrl(Some(local + name), Some(hash), defaultDocumentUrl, defaultResourceHash);
    assert url == local + name + "#" + hash;
    SlugOfCookbookPath(local, name, hash, remote);
  }

  /** The slug of `local + name + "#" + hash` is `name` with `/` turned into `-`. */
  lemma SlugOfCookbookPath(local: string, name: string, hash: string, remote: Option<string>)
    requires name != [] && '#' !in name && NoLineTerminatorFrom(name, 0) && NoLineTerminatorFrom(hash, 0)
    requires !(Truthy(remote) && StartsWith(local + name + "#" + hash, remote.value))
    ensures Slug(Some(local + name + "#" + hash), remote, local) == Some(SlashesToDashes(name))
  {
    var url := local + name + "#" + hash;
    assert url == local + (name + "#" + hash);
    assert StartsWith(url, local);
    assert url[|local|..] == name + "#" + hash;
    SlugOfNamedPath(name, hash);
  }

  /** The slug of `name + "#" + hash` is `name` with `/` turned into `-`. */
  lemma SlugOfNamedPath(name: string, hash: string)
    requires name != [] && '#' !in name && NoLineTerminatorFrom(name, 0) && NoLineTerminatorFrom(hash, 0)
    ensures SlugOfPath(name + "#" + hash) == Some(SlashesToDashes(name))
  {
    var path := name + "#" + hash;
    var s := SlashesToDashes(path);
    assert forall i :: 0 <= i < |name| ==> s[i] == SlashesToDashes(name)[i] && s[i] != '#';
    assert s[|name|] == '#';
    assert NoLineTerminatorFrom(s, 0) by {
      forall i | 0 <= i < |s| ensures !IsLineTerminator(s[i]) {
        if i > |name| { assert path[i] == hash[i - |name| - 1]; }
      }
    }
    SlugMatchIsFirstRun(s);
    var m := SlugMatchFrom(s, 0);
    assert s[0] != '#';
    var (a, b) := m.value;
    assert a == 0;
    assert HashFreeRunEnd(s, 0) == |name| by {
      HashFreeRunIsSlugGroup(s, 0);
      assert SlugGroupAt(s, 0, |name|);
      SlugGroupEndsAtRunEnd(s, 0, |name|);
    }
    assert s[a..b] == SlashesToDashes(name);
  }

  // ---------------------------------------------------------------------
  // Servings
  // ---------------------------------------------------------------------

  /** `\d`: an ASCII digit. */
  predicate IsDigit(c: char) {
    '0' <= c <= '9'
  }

  predicate AllDigits(s: string) {
    forall i :: 0 <= i < |s| ==> IsDigit(s[i])
  }

  function DigitRunEnd(s: string, i: nat): (e: nat)
    requires i <= |s|
    ensures i <= e <= |s|
    ensures forall k :: i <= k < e ==> IsDigit(s[k])
    ensures e == |s| || !IsDigit(s[e])
    decreases |s| - i
  {
    if i == |s| || !IsDigit(s[i]) then i else DigitRunEnd(s, i + 1)
  }

  /** The leftmost match of `/\d+/` at or after `from`: the first maximal run of digits. */
  function FirstDigitRun(s: string, from: nat): (m: Option<(nat, nat)>)
    requires from <= |s|
    ensures m.Some? ==> from <= m.value.0 < m.value.1 <= |s|
    ensures m.Some? ==> forall i :: from <= i < m.value.0 ==> !IsDigit(s[i])
    ensures m.Some? ==> forall i :: m.value.0 <= i < m.value.1 ==> IsDigit(s[i])
    ensures m.Some? ==> m.value.1 == |s| || !IsDigit(s[m.value.1])
    ensures m.None? ==> forall i :: from <= i < |s| ==> !IsDigit(s[i])
    decreases |s| - from
  {
    if from == |s| then None
    else if IsDigit(s[from]) then Some((from, DigitRunEnd(s, from)))
    else FirstDigitRun(s, from + 1)
  }

  function DigitValue(c: char): nat
    requires IsDigit(c)
  {
    (c as int) - ('0' as int)
  }

  function DigitChar(d: nat): (c: char)
    requires d < 10
    ensures IsDigit(c) && DigitValue(c) == d
  {
    ('0' as int + d) as char
  }

  function Pow10(k: nat): (p: nat)
    ensures p > 0
  {
    if k == 0 then 1 else 10 * Pow10(k - 1)
  }

  /** `parseInt` of a run of decimal digits: below 10 to the number of digits. */
  function ParseDigits(digits: string): (n: nat)
    requires AllDigits(digits)
    ensures n < Pow10(|digits|)
    decreases |digits|
  {
    if digits == [] then 0
    else ParseDigits(digits[..|digits| - 1]) * 10 + DigitValue(digits[|digits| - 1])
  }

  /** `n.toString()` for a natural number: its decimal digits, without leading zero. */
  function NatToDecimal(n: nat): (s: string)
    ensures s != [] && AllDigits(s)
    ensures ParseDigits(s) == n
    ensures s[0] == '0' ==> s == "0"
    decreases n
  {
    if n < 10 then [DigitChar(n)]
    else
      var s := NatToDecimal(n / 10) + [DigitChar(n % 10)];
      assert s[..|s| - 1] == NatToDecimal(n / 10);
      s
  }

  /** `q.toString()` for an integer quantity. */
  function IntToDecimal(q: int): (s: string)
    ensures q >= 0 ==> s != [] && AllDigits(s) && ParseDigits(s) == q && (s[0] == '0' ==> s == "0")
    ensures q < 0 ==> |s| >= 2 && s[0] == '-' && AllDigits(s[1..]) && ParseDigits(s[1..]) == -q && s[1] != '0'
  {
    if q < 0 then "-" + NatToDecimal(-q) else NatToDecimal(q)
  }

  /** `pattern` occurs in `s` at position `j`. */
  predicate OccursAt(s: string, pattern: string, j: nat) {
    j + |pattern| <= |s| && s[j..j + |pattern|] == pattern
  }

  /** `s.indexOf(pattern, from)`, with -1 as `None`. */
  function IndexOf(s: string, pattern: string, from: nat): (k: Option<nat>)
    ensures k.Some? ==> from <= k.value && OccursAt(s, pattern, k.value)
    ensures k.Some? ==> forall j :: from <= j < k.value ==> !OccursAt(s, pattern, j)
    ensures k.None? ==> forall j :: from <= j ==> !OccursAt(s, pattern, j)
    decreases |s| + 1 - from
  {
    if from + |pattern| > |s| then None
    else if OccursAt(s, pattern, from) then Some(from)
    else IndexOf(s, pattern, from + 1)
  }

  /** `s.replace(pattern, replacement)` with a string pattern: only the first occurrence is replaced. */
  function ReplaceFirst(s: string, pattern: string, replacement: string): string {
    match IndexOf(s, pattern, 0)
    case None => s
    case Some(k) => s[..k] + replacement + s[k + |pattern|..]
  }

  /**
   * The input is kept when the pattern does not occur; otherwise the text
   * before its first occurrence, the replacement, and the text after that
   * occurrence, in this order.
   */
  lemma ReplaceFirstSplices(s: string, pattern: string, replacement: string)
    ensures IndexOf(s, pattern, 0).None? ==> ReplaceFirst(s, pattern, replacement) == s
    ensures IndexOf(s, pattern, 0).Some? ==>
      var r := ReplaceFirst(s, pattern, replacement);
      var k := IndexOf(s, pattern, 0).value;
      && |r| == |s| - |pattern| + |replacement|
      && r[..k] == s[..k] && r[k..k + |replacement|] == replacement && r[k + |replacement|..] == s[k + |pattern|..]
  {
  }

  /**
   * `servingsBreakdown`: the original servings text, the value of its first
   * run of digits, and that run (which `renderQuantity` replaces).
   */
  datatype ServingsBreakdown = ServingsBreakdown(original: string, quantity: nat, quantityMatch: string)

  function ServingsBreakdownOf(servings: Option<string>): (b: Option<ServingsBreakdown>)
    ensures b.None? <==> servings.None? || forall i :: 0 <= i < |servings.value| ==> !IsDigit(servings.value[i])
    ensures b.Some? ==> b.value.original == servings.value && b.value.quantityMatch != [] && AllDigits(b.value.quantityMatch)
    ensures b.Some? ==> b.value.quantity == ParseDigits(b.value.quantityMatch)
  {
    if servings.None? || servings.value == "" then None
    else
      match FirstDigitRun(servings.value, 0)
      case None => None
      case Some((start, end)) =>
        var digits := servings.value[start..end];
        assert forall i :: 0 <= i < |digits| ==> digits[i] == servings.value[start + i];
        Some(ServingsBreakdown(servings.value, ParseDigits(digits), digits))
  }

  /** The breakdown's matched digits are the first run of digits of the servings text. */
  lemma BreakdownMatchesFirstRun(servings: string)
    requires ServingsBreakdownOf(Some(servings)).Some?
    ensures FirstDigitRun(servings, 0).Some?
    ensures var (start, end) := FirstDigitRun(servings, 0).value;
      ServingsBreakdownOf(Some(servings)).value.quantityMatch == servings[start..end]
  {
  }

  /** `renderQuantity(quantity)`: the original text with the matched digits replaced by the quantity. */
  function RenderQuantity(b: ServingsBreakdown, quantity: int): string {
    ReplaceFirst(b.original, b.quantityMatch, IntToDecimal(quantity))
  }

  /**
   * The rendered text is the original one with the first occurrence of the
   * matched digits replaced by the quantity's decimal text, or the original
   * text when they do not occur.
   */
  lemma RenderQuantitySplices(b: ServingsBreakdown, quantity: int)
    ensures IndexOf(b.original, b.quantityMatch, 0).None? ==> RenderQuantity(b, quantity) == b.original
    ensures IndexOf(b.original, b.quantityMatch, 0).Some? ==>
      var text := RenderQuantity(b, quantity);
      var k := IndexOf(b.original, b.quantityMatch, 0).value;
      var decimal := IntToDecimal(quantity);
      && |text| == |b.original| - |b.quantityMatch| + |decimal|
      && text[..k] == b.original[..k] && text[k..k + |decimal|] == decimal
      && text[k + |decimal|..] == b.original[k + |b.quantityMatch|..]
  {
    ReplaceFirstSplices(b.original, b.quantityMatch, IntToDecimal(quantity));
  }

  /** The first occurrence of the matched digits is the first digit run itself. */
  lemma {:induction false} QuantityMatchFoundAtFirstRun(servings: string)
    requires ServingsBreakdownOf(Some(servings)).Some?
    ensures FirstDigitRun(servings, 0).Some?
    ensures var (start, end) := FirstDigitRun(servings, 0).value;
      IndexOf(servings, ServingsBreakdownOf(Some(servings)).value.quantityMatch, 0) == Some(start)
  {
    BreakdownMatchesFirstRun(servings);
    var (start, end) := FirstDigitRun(servings, 0).value;
    FirstRunOccursFirst(servings, start, end);
  }

  /** The first digit run occurs nowhere before its own start. */
  lemma FirstRunOccursFirst(servings: string, start: nat, end: nat)
    requires FirstDigitRun(servings, 0) == Some((start, end))
    ensures IndexOf(servings, servings[start..end], 0) == Some(start)
  {
    var digits := servings[start..end];
    assert OccursAt(servings, digits, start);
    forall j | 0 <= j < start ensures !OccursAt(servings, digits, j) {
      if j + |digits| <= |servings| {
        assert servings[j..j + |digits|][0] == servings[j];
        assert servings[j..j + |digits|][0] != digits[0];
      }
    }
  }

  /** `renderQuantity(q)` replaces exactly the first run of digits and keeps what surrounds it. */
  lemma RenderQuantityReplacesFirstRun(servings: string, quantity: int)
    requires ServingsBreakdownOf(Some(servings)).Some?
    ensures FirstDigitRun(servings, 0).Some?
    ensures var (start, end) := FirstDigitRun(servings, 0).value;
      RenderQuantity(ServingsBreakdownOf(Some(servings)).value, quantity)
        == servings[..start] + IntToDecimal(quantity) + servings[end..]
  {
    QuantityMatchFoundAtFirstRun(servings);
  }

  /** Digits without a leading zero are the decimal text of their value. */
  lemma {:induction false} DecimalOfParsedDigits(digits: string)
    requires digits != [] && AllDigits(digits) && (digits[0] == '0' ==> digits == "0")
    ensures NatToDecimal(ParseDigits(digits)) == digits
    decreases |digits|
  {
    if |digits| == 1 {
      assert digits[..0] == [];
      assert DigitChar(DigitValue(digits[0])) == digits[0];
    } else {
      var init := digits[..|digits| - 1];
      assert init[0] == digits[0];
      DecimalOfParsedDigits(init);
      PositiveWithoutLeadingZero(init);
      var n := ParseDigits(digits);
      var last := DigitValue(digits[|digits| - 1]);
      assert n == ParseDigits(init) * 10 + last;
      DivModTen(ParseDigits(init), last);
      assert NatToDecimal(n) == NatToDecimal(n / 10) + [DigitChar(n % 10)];
      assert DigitChar(last) == digits[|digits| - 1];
      assert digits == init + [digits[|digits| - 1]];
    }
  }

  lemma DivModTen(q: nat, d: nat)
    requires d < 10
    ensures (q * 10 + d) / 10 == q && (q * 10 + d) % 10 == d
  {
  }

  lemma {:induction false} PositiveWithoutLeadingZero(digits: string)
    requires digits != [] && AllDigits(digits) && digits[0] != '0'
    ensures ParseDigits(digits) > 0
    decreases |digits|
  {
    if |digits| > 1 {
      var init := digits[..|digits| - 1];
      assert init[0] == digits[0];
      PositiveWithoutLeadingZero(init);
    }
  }

  /** A run of digits with a leading zero is never the decimal text of its value. */
  lemma DecimalOfLeadingZeroDiffers(digits: string)
    requires AllDigits(digits) && digits != [] && digits[0] == '0' && digits != "0"
    ensures NatToDecimal(ParseDigits(digits)) != digits
  {
    var text := NatToDecimal(ParseDigits(digits));
    if text[0] != '0' {
      assert text[0] != digits[0];
    }
  }

  /** Two splices into the same surroundings are equal exactly when the spliced texts are. */
  lemma SpliceEqualIff(prefix: string, x: string, y: string, suffix: string)
    ensures prefix + x + suffix == prefix + y + suffix <==> x == y
  {
    if x != y && |x| == |y| {
      assert (prefix + x + suffix)[|prefix|..|prefix| + |x|] == x;
      assert (prefix + y + suffix)[|prefix|..|prefix| + |y|] == y;
    }
  }

  /** A run of digits is the decimal text of its value exactly when it has no leading zero. */
  lemma DecimalOfDigitsIff(digits: string)
    requires digits != [] && AllDigits(digits)
    ensures NatToDecimal(ParseDigits(digits)) == digits <==> (digits[0] == '0' ==> digits == "0")
  {
    if digits[0] == '0' ==> digits == "0" {
      DecimalOfParsedDigits(digits);
    } else {
      DecimalOfLeadingZeroDiffers(digits);
    }
  }

  /**
   * Rendering the parsed quantity gives back the original servings text
   * exactly when the matched digits have no leading zero.
   */
  lemma {:induction false} RenderParsedQuantityRoundTrip(servings: string)
    requires ServingsBreakdownOf(Some(servings)).Some?
    ensures var b := ServingsBreakdownOf(Some(servings)).value;
      RenderQuantity(b, b.quantity) == servings <==> (b.quantityMatch[0] == '0' ==> b.quantityMatch == "0")
  {
    var b := ServingsBreakdownOf(Some(servings)).value;
    var m := b.quantityMatch;
    RenderQuantityReplacesFirstRun(servings, b.quantity);
    BreakdownMatchesFirstRun(servings);
    var (start, end) := FirstDigitRun(servings, 0).value;
    var prefix, suffix := servings[..start], servings[end..];
    assert servings == prefix + m + suffix;
    DecimalOfDigitsIff(m);
    SpliceEqualIff(prefix, IntToDecimal(b.quantity), m, suffix);
  }

  /** "02 people" parses to 2, and rendering 2 gives "2 people", not the original text. */
  lemma LeadingZeroServingsNotReproduced()
    ensures ServingsBreakdownOf(Some("02 people")).Some?
    ensures var b := ServingsBreakdownOf(Some("02 people")).value;
      b.quantity == 2 && RenderQuantity(b, b.quantity) != "02 people"
  {
    var s := "02 people";
    assert DigitRunEnd(s, 2) == 2;
    assert DigitRunEnd(s, 0) == 2;
    assert FirstDigitRun(s, 0) == Some((0, 2));
    BreakdownMatchesFirstRun(s);
    var b := ServingsBreakdownOf(Some(s)).value;
    assert b.quantityMatch == "02";
    assert ParseDigits("0") == 0 by { assert "0"[..0] == ""; }
    assert ParseDigits("02") == 2 by { assert "02"[..1] == "0"; }
    RenderParsedQuantityRoundTrip(s);
  }

  // ---------------------------------------------------------------------
  // Instructions
  // ---------------------------------------------------------------------

  ghost predicate SortedByPosition(steps: seq<Step>) {
    forall i, j :: 0 <= i < j < |steps| ==> steps[i].position <= steps[j].position
  }

  /** Inserts `step` before the first step that does not come before it. */
  function InsertByPosition(step: Step, sorted: seq<Step>): (r: seq<Step>)
    ensures multiset(r) == multiset(sorted) + multiset{step}
  {
    if sorted == [] || step.position <= sorted[0].position then
      [step] + sorted
    else
      assert sorted == [sorted[0]] + sorted[1..];
      [sorted[0]] + InsertByPosition(step, sorted[1..])
  }

  lemma {:induction false} InsertKeepsBound(step: Step, sorted: seq<Step>, bound: int)
    requires bound <= step.position
    requires forall k :: 0 <= k < |sorted| ==> bound <= sorted[k].position
    ensures forall i :: 0 <= i < |InsertByPosition(step, sorted)| ==> bound <= InsertByPosition(step, sorted)[i].position
  {
    if sorted != [] && step.position > sorted[0].position {
      InsertKeepsBound(step, sorted[1..], bound);
    }
  }

  lemma {:induction false} InsertKeepsSorted(step: Step, sorted: seq<Step>)
    requires SortedByPosition(sorted)
    ensures SortedByPosition(InsertByPosition(step, sorted))
  {
    if sorted != [] && step.position > sorted[0].position {
      InsertKeepsSorted(step, sorted[1..]);
      InsertKeepsBound(step, sorted[1..], sorted[0].position);
    }
  }

  /** `arraySorted(steps, 'position')`: the steps in ascending order of position. */
  function SortByPosition(steps: seq<Step>): (r: seq<Step>)
    ensures SortedByPosition(r) && multiset(r) == multiset(steps)
  {
    if steps == [] then []
    else
      assert steps == [steps[0]] + steps[1..];
      InsertKeepsSorted(steps[0], SortByPosition(steps[1..]));
      InsertByPosition(steps[0], SortByPosition(steps[1..]))
  }

  /** `sortedInstructions`: the instructions sorted by position, none when they are unset. */
  function SortedInstructions(r: Recipe): (steps: seq<Step>)
    ensures SortedByPosition(steps)
    ensures multiset(steps) == multiset(if r.instructions.Some? then r.instructions.value else [])
  {
    SortByPosition(if r.instructions.Some? then r.instructions.value else [])
  }

  // ---------------------------------------------------------------------
  // Links, routes, identity, export
  // ---------------------------------------------------------------------

  /** `arrayFilter(values)`: the truthy values, in order. */
  function TruthyValues(values: seq<Option<string>>): (r: seq<string>)
    ensures |r| <= |values|
    ensures forall x :: x in r <==> x != "" && Some(x) in values
    ensures (forall i :: 0 <= i < |values| ==> Truthy(values[i])) ==>
      |r| == |values| && forall i :: 0 <= i < |r| ==> values[i] == Some(r[i])
    ensures |values| == 1 ==> r == (if Truthy(values[0]) then [values[0].value] else [])
  {
    if values == [] then []
    else
      assert values == [values[0]] + values[1..];
      (if Truthy(values[0]) then [values[0].value] else []) + TruthyValues(values[1..])
  }

  /** Filtering distributes over concatenation, so the kept values stay in their order. */
  lemma {:induction false} TruthyValuesAppend(a: seq<Option<string>>, b: seq<Option<string>>)
    ensures TruthyValues(a + b) == TruthyValues(a) + TruthyValues(b)
  {
    if a != [] {
      assert (a + b)[1..] == a[1..] + b;
      TruthyValuesAppend(a[1..], b);
    } else {
      assert a + b == b;
    }
  }

  function Present(urls: seq<string>): (r: seq<Option<string>>)
    ensures |r| == |urls| && forall i :: 0 <= i < |urls| ==> r[i] == Some(urls[i])
    ensures forall x :: Some(x) in r <==> x in urls
  {
    seq(|urls|, i requires 0 <= i < |urls| => Some(urls[i]))
  }

  /** `[url, getDocumentUrl(), ...externalUrls]`, before filtering. */
  function LinkCandidates(r: Recipe): (candidates: seq<Option<string>>)
    ensures |candidates| == 2 + |r.externalUrls|
    ensures candidates[0] == r.url && candidates[1] == r.documentUrl
    ensures forall i :: 2 <= i < |candidates| ==> candidates[i] == Some(r.externalUrls[i - 2])
  {
    [r.url, r.documentUrl] + Present(r.externalUrls)
  }

  lemma LinkCandidatesContain(r: Recipe, x: string)
    ensures Some(x) in LinkCandidates(r) <==> r.url == Some(x) || r.documentUrl == Some(x) || x in r.externalUrls
  {
    var c := LinkCandidates(r);
    if x in r.externalUrls {
      var i :| 0 <= i < |r.externalUrls| && r.externalUrls[i] == x;
      assert c[i + 2] == Some(x);
    }
    if Some(x) in c {
      var i :| 0 <= i < |c| && c[i] == Some(x);
      assert i >= 2 ==> r.externalUrls[i - 2] == x;
    }
  }

  /**
   * `autoLinks`: the url, the document url and the external urls, in that
   * order, with the unset and empty ones left out.
   */
  function AutoLinks(r: Recipe): (links: seq<string>)
    ensures |links| <= 2 + |r.externalUrls|
    ensures forall x :: x in links <==> x != "" && (r.url == Some(x) || r.documentUrl == Some(x) || x in r.externalUrls)
  {
    var links := TruthyValues(LinkCandidates(r));
    assert forall x :: x in links <==> x != "" && (r.url == Some(x) || r.documentUrl == Some(x) || x in r.externalUrls) by {
      forall x ensures x in links <==> x != "" && (r.url == Some(x) || r.documentUrl == Some(x) || x in r.externalUrls) {
        LinkCandidatesContain(r, x);
      }
    }
    links
  }

  /**
   * The links are the url, then the document url, then the external urls,
   * in this order, each kept only when set and non-empty.
   */
  lemma AutoLinksInOrder(r: Recipe)
    ensures AutoLinks(r) == (if Truthy(r.url) then [r.url.value] else [])
      + (if Truthy(r.documentUrl) then [r.documentUrl.value] else [])
      + TruthyValues(Present(r.externalUrls))
  {
    assert LinkCandidates(r) == [r.url] + [r.documentUrl] + Present(r.externalUrls);
    TruthyValuesAppend([r.url] + [r.documentUrl], Present(r.externalUrls));
    TruthyValuesAppend([r.url], [r.documentUrl]);
  }

  /** When every link is set and non-empty, nothing is dropped and the order is kept. */
  lemma AutoLinksKeepOrder(r: Recipe)
    requires Truthy(r.url) && Truthy(r.documentUrl) && "" !in r.externalUrls
    ensures AutoLinks(r) == [r.url.value, r.documentUrl.value] + r.externalUrls
  {
    AutoLinksInOrder(r);
    NonEmptyUrlsKept(r.externalUrls);
  }

  /** Non-empty urls all pass the filter, in their order. */
  lemma NonEmptyUrlsKept(urls: seq<string>)
    requires "" !in urls
    ensures TruthyValues(Present(urls)) == urls
  {
    var present := Present(urls);
    forall i | 0 <= i < |present| ensures Truthy(present[i]) {
      assert urls[i] in urls;
    }
    var kept := TruthyValues(present);
    assert forall i :: 0 <= i < |kept| ==> kept[i] == urls[i];
  }

  /**
   * `route(type)`: the viewer route, with the url as query, for type
   * `viewer`; otherwise the route `recipes.<type>` (type `show` by default)
   * with the slug as the `recipe` param.
   */
  function Route(r: Recipe, routeType: Option<string>, remoteCookbookUrl: Option<string>, localCookbookUrl: string): (location: RouteLocation)
    ensures location.name == "viewer" <==> routeType == Some("viewer")
    ensures routeType == Some("viewer") ==> location.query == map["url" := r.url] && location.params == map[]
    ensures routeType != Some("viewer") ==> (
      && location.query == map[]
      && location.params == map["recipe" := Slug(r.url, remoteCookbookUrl, localCookbookUrl)]
      && StartsWith(location.name, "recipes.")
      && location.name[|"recipes."|..] == (if routeType.Some? then routeType.value else "show"))
  {
    var t := if routeType.Some? then routeType.value else "show";
    if t == "viewer" then RouteLocation("viewer", map[], map["url" := r.url])
    else
      var name := "recipes." + t;
      assert name[0] != "viewer"[0];
      RouteLocation(name, map["recipe" := Slug(r.url, remoteCookbookUrl, localCookbookUrl)], map[])
  }

  /** `a.is(b)`: the same url, or `b`'s url is one of `a`'s external urls. */
  function Is(a: Recipe, b: Recipe): (matches: bool)
    ensures a.url == b.url ==> matches
    ensures b.url.None? ==> (matches <==> a.url.None?)
    ensures b.url.Some? && b.url.value in a.externalUrls ==> matches
    ensures matches && a.url != b.url ==> b.url.Some? && b.url.value in a.externalUrls
  {
    a.url == b.url || (b.url.Some? && b.url.value in a.externalUrls)
  }

  lemma IsReflexive(a: Recipe)
    ensures Is(a, a)
  {
  }

  /** `is` is not symmetric: a recipe that lists another's url as external matches it, not the reverse. */
  lemma IsNotSymmetric()
    ensures exists a: Recipe, b: Recipe :: Is(a, b) && !Is(b, a)
  {
    var a := Recipe(Some("https://a"), None, ["https://b"], [], None, None);
    var b := Recipe(Some("https://b"), None, [], [], None, None);
    assert Is(a, b) && !Is(b, a);
  }

  datatype ExportOptions = ExportOptions(includeIds: Option<bool>, includeHistory: Option<bool>)

  /** The options passed to the JSON-LD serialiser; `ids` is unset when neither the caller nor the url says. */
  datatype JsonLDOptions = JsonLDOptions(ids: Option<bool>, timestamps: bool, history: bool)

  /** The option resolution of `toExternalJsonLD`. */
  function ExternalJsonLDOptions(url: Option<string>, options: ExportOptions): (resolved: JsonLDOptions)
    ensures resolved.timestamps == resolved.history
    ensures resolved.history <==> options.includeHistory == Some(true)
    ensures options.includeIds.Some? ==> resolved.ids == options.includeIds
    ensures options.includeIds.None? && url.None? ==> resolved.ids.None?
    ensures options.includeIds.None? && url.Some? ==> resolved.ids == Some(StartsWith(url.value, "http"))
  {
    var ids := if options.includeIds.Some? then options.includeIds
               else if url.Some? then Some(StartsWith(url.value, "http")) else None;
    var history := if options.includeHistory.Some? then options.includeHistory.value else false;
    JsonLDOptions(ids, history, history)
  }
}
