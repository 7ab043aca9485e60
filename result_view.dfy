/**
 * How a decoded text is shown (src/scanner/Result.tsx): `GetUrl` sniffs a
 * link out of the text, and the text becomes an anchor exactly when it does.
 */
module ResultView {
  import opened Wrappers
  import opened Text

  /** `/[a-z]+:/i` matches at k: a letter at k immediately followed by ':'. */
  predicate SchemeAt(t: string, k: int) {
    0 <= k && k + 1 < |t| && IsLetter(t[k]) && t[k + 1] == ':'
  }

  /** The scheme test: the pattern matches somewhere in `t`. */
  ghost predicate HasScheme(t: string) {
    exists k :: SchemeAt(t, k)
  }

  /** Positions j until m (exclusive) hold letters only. */
  predicate LettersBetween(t: string, j: int, m: int)
    requires 0 <= j <= m <= |t|
  {
    forall i :: j <= i < m ==> IsLetter(t[i])
  }

  /**
   * `/(?:[a-z]+\.)+[a-z]+(\/|$)/i` matches with its last dot at k + 1: a
   * letter at k, '.', letters from k + 2 to m, then '/' or the end. Any match
   * of the pattern contains one of these, and each of these is a match.
   */
  predicate DomainAt(t: string, k: int, m: int) {
    && 0 <= k && k + 2 < m <= |t|
    && IsLetter(t[k]) && t[k + 1] == '.'
    && LettersBetween(t, k + 2, m)
    && (m == |t| || t[m] == '/')
  }

  /** The domain test: the pattern matches somewhere in `t`. */
  ghost predicate HasDomain(t: string) {
    exists k, m :: DomainAt(t, k, m)
  }

  /** Searches for a scheme match starting at or after `i`. */
  function FindScheme(t: string, i: nat): (found: bool)
    ensures found <==> exists k :: i <= k && SchemeAt(t, k)
    decreases |t| - i
  {
    if i + 1 >= |t| then false
    else if IsLetter(t[i]) && t[i + 1] == ':' then
      assert SchemeAt(t, i);
      true
    else
      var rest := FindScheme(t, i + 1);
      assert forall k :: i <= k && SchemeAt(t, k) ==> i + 1 <= k;
      rest
  }

  /** A run of letters starts at `j` and is followed by '/' or the end of `t`. */
  ghost predicate RunToBoundary(t: string, j: int, m: int) {
    0 <= j < m <= |t| && LettersBetween(t, j, m) && (m == |t| || t[m] == '/')
  }

  /** Whether letters from `j` on reach a '/' or the end of `t`. */
  function LettersToBoundary(t: string, j: nat): (found: bool)
    ensures found <==> exists m :: RunToBoundary(t, j, m)
    decreases |t| - j
  {
    if j >= |t| || !IsLetter(t[j]) then
      assert forall m :: !RunToBoundary(t, j, m);
      false
    else if j + 1 == |t| || t[j + 1] == '/' then
      assert RunToBoundary(t, j, j + 1);
      true
    else
      var rest := LettersToBoundary(t, j + 1);
      if rest then
        assert exists m :: RunToBoundary(t, j, m) by {
          var m :| RunToBoundary(t, j + 1, m);
          assert RunToBoundary(t, j, m);
        }
        true
      else
        assert forall m :: RunToBoundary(t, j, m) ==> RunToBoundary(t, j + 1, m);
        false
  }

  /** Searches for a domain match whose last dot follows position `i` or a later one. */
  function FindDomain(t: string, i: nat): (found: bool)
    ensures found <==> exists k, m :: i <= k && DomainAt(t, k, m)
    decreases |t| - i
  {
    if i + 2 >= |t| then
      false
    else if IsLetter(t[i]) && t[i + 1] == '.' && LettersToBoundary(t, i + 2) then
      assert exists m :: DomainAt(t, i, m) by {
        var m :| RunToBoundary(t, i + 2, m);
        assert DomainAt(t, i, m);
      }
      true
    else
      var rest := FindDomain(t, i + 1);
      assert forall k, m :: i <= k && DomainAt(t, k, m) ==> i + 1 <= k by {
        if IsLetter(t[i]) && t[i + 1] == '.' {
          assert forall m :: DomainAt(t, i, m) ==> RunToBoundary(t, i + 2, m);
        }
      }
      rest
  }

  /**
   * `getUrl`: the trimmed text itself when it contains a scheme, the trimmed
   * text behind "http://" when it only looks like a domain, and `None`
   * otherwise.
   */
  function GetUrl(text: string): (url: Option<string>)
    ensures var t := Trim(text);
      && (HasScheme(t) ==> url == Some(t))
      && (!HasScheme(t) && HasDomain(t) ==> url == Some("http://" + t))
      && (!HasScheme(t) && !HasDomain(t) ==> url == None)
  {
    var t := Trim(text);
    if FindScheme(t, 0) then Some(t)
    else if FindDomain(t, 0) then Some("http://" + t)
    else None
  }

  /** Empty or whitespace-only text has no link. */
  lemma BlankHasNoUrl(text: string)
    requires forall i :: 0 <= i < |text| ==> IsSpace(text[i])
    ensures GetUrl(text) == None
  {
    TrimBlank(text);
  }

  /** Text with no ':' and no '.' has no link. */
  lemma NoPunctuationNoUrl(text: string)
    requires forall i :: 0 <= i < |text| ==> text[i] != ':' && text[i] != '.'
    ensures GetUrl(text) == None
  {
    var t := Trim(text);
    var a :| SliceBetweenSpaces(text, t, a);
    forall i | 0 <= i < |t| ensures t[i] != ':' && t[i] != '.' {
      assert t[i] == text[a + i];
    }
    assert !HasScheme(t);
    assert !HasDomain(t);
  }

  /** The characters of `name + "." + tld`: letters around a single dot. */
  lemma DottedLetters(name: string, tld: string)
    requires LettersBetween(name, 0, |name|) && LettersBetween(tld, 0, |tld|)
    ensures var t := name + "." + tld;
      && (forall i :: 0 <= i < |t| ==> t[i] != ':')
      && LettersBetween(t, 0, |name|) && t[|name|] == '.'
      && LettersBetween(t, |name| + 1, |t|)
  {
    var t := name + "." + tld;
    forall i | 0 <= i < |t| ensures if i == |name| then t[i] == '.' else IsLetter(t[i]) {
      if i < |name| {
        assert t[i] == name[i];
      } else if i > |name| {
        assert t[i] == tld[i - |name| - 1];
      }
    }
  }

  /** Two runs of letters joined by a dot, such as `example.com`, get the "http://" prefix. */
  lemma BareDomain(name: string, tld: string)
    requires |name| > 0 && LettersBetween(name, 0, |name|)
    requires |tld| > 0 && LettersBetween(tld, 0, |tld|)
    ensures GetUrl(name + "." + tld) == Some("http://" + (name + "." + tld))
  {
    var t := name + "." + tld;
    DottedLetters(name, tld);
    TrimUnpadded(t);
    assert !HasScheme(t);
    assert DomainAt(t, |name| - 1, |t|);
  }

  /** What the decoded text renders as: a link to `href`, or plain text. */
  datatype Rendered = Link(href: string, text: string) | Plain(text: string)

  /** The `Result` component: an anchor exactly when `GetUrl` finds a link. */
  function Render(text: string): (shown: Rendered)
    ensures shown.text == text
    ensures shown.Link? <==> GetUrl(text).Some?
    ensures shown.Link? ==> shown.href == GetUrl(text).value
  {
    match GetUrl(text)
    case Some(url) => Link(url, text)
    case None => Plain(text)
  }
}
