/**
 * String utilities: tokenising, padding, stripping, prefix tests, word
 * wrapping and two string distances. Characters are `char`; the case
 * mappings are those of the "C" locale (ASCII letters only).
 *
 * `std::string::npos` is modelled by the string's length where a search
 * result is concerned ("not found" = `|s|`) and by `Npos` where a caller
 * passes it as an argument.
 */
module Strings {

  /** The characters the library treats as white space. */
  const WhitespaceChars: string := " \t\n\r\U{000C}\U{000B}"

  /** `std::string::npos`, the largest `size_type`. */
  const Npos: nat := 0xffff_ffff_ffff_ffff

  /** The default width of `fill` and `wrap`. */
  const DefaultWidth: nat := 70

  // ---------------------------------------------------------------------
  // Characters

  /** The `is_whitespace` predicate object. */
  predicate IsWhitespace(c: char)
  {
    match c
    case ' ' => true
    case '\t' => true
    case '\n' => true
    case '\r' => true
    case '\U{000C}' => true
    case '\U{000B}' => true
    case _ => false
  }

  /** `is_whitespace` and `whitespace_chars` name the same six characters. */
  lemma IsWhitespaceMatchesChars(c: char)
    ensures IsWhitespace(c) <==> c in WhitespaceChars
  {
  }

  /** `std::toupper` in the "C" locale. */
  function Upper(c: char): (r: char)
    ensures 'a' <= c <= 'z' ==> 'A' <= r <= 'Z' && r as int - c as int == 'A' as int - 'a' as int
    ensures !('a' <= c <= 'z') ==> r == c
  {
    if 'a' <= c <= 'z' then (c as int - 'a' as int + 'A' as int) as char else c
  }

  /** `std::tolower` in the "C" locale. */
  function Lower(c: char): (r: char)
    ensures 'A' <= c <= 'Z' ==> 'a' <= r <= 'z' && r as int - c as int == 'a' as int - 'A' as int
    ensures !('A' <= c <= 'Z') ==> r == c
  {
    if 'A' <= c <= 'Z' then (c as int - 'A' as int + 'a' as int) as char else c
  }

  /** The two mappings undo each other on letters and fix everything else. */
  lemma CaseRoundTrip(c: char)
    ensures Upper(Upper(c)) == Upper(c) && Lower(Lower(c)) == Lower(c)
    ensures 'a' <= c <= 'z' ==> Lower(Upper(c)) == c
    ensures 'A' <= c <= 'Z' ==> Upper(Lower(c)) == c
  {
  }

  /** `to_upper`: rewrites the string in place, one character at a time. */
  method ToUpper(str: array<char>)
    modifies str
    ensures forall k :: 0 <= k < str.Length ==> str[k] == Upper(old(str[k]))
  {
    var k := 0;
    while k < str.Length
      invariant 0 <= k <= str.Length
      invariant forall j :: 0 <= j < k ==> str[j] == Upper(old(str[j]))
      invariant forall j :: k <= j < str.Length ==> str[j] == old(str[j])
    {
      str[k] := Upper(str[k]);
      k := k + 1;
    }
  }

  /** `to_lower`: rewrites the string in place, one character at a time. */
  method ToLower(str: array<char>)
    modifies str
    ensures forall k :: 0 <= k < str.Length ==> str[k] == Lower(old(str[k]))
  {
    var k := 0;
    while k < str.Length
      invariant 0 <= k <= str.Length
      invariant forall j :: 0 <= j < k ==> str[j] == Lower(old(str[j]))
      invariant forall j :: k <= j < str.Length ==> str[j] == old(str[j])
    {
      str[k] := Lower(str[k]);
      k := k + 1;
    }
  }

  // ---------------------------------------------------------------------
  // Searching (the `std::string` members the library calls)

  /** `find_first_not_of(chars, from)`, with `|s|` for `npos`. */
  function FindFirstNotOf(s: string, chars: string, from: nat): (p: nat)
    requires from <= |s|
    ensures from <= p <= |s|
    ensures forall k :: from <= k < p ==> s[k] in chars
    ensures p < |s| ==> s[p] !in chars
    decreases |s| - from
  {
    if from == |s| || s[from] !in chars then from else FindFirstNotOf(s, chars, from + 1)
  }

  /** `find_first_of(chars, from)`, with `|s|` for `npos`. */
  function FindFirstOf(s: string, chars: string, from: nat): (p: nat)
    requires from <= |s|
    ensures from <= p <= |s|
    ensures forall k :: from <= k < p ==> s[k] !in chars
    ensures p < |s| ==> s[p] in chars
    decreases |s| - from
  {
    if from == |s| || s[from] in chars then from else FindFirstOf(s, chars, from + 1)
  }

  /** `find_last_not_of(chars)`, with -1 for `npos`. */
  function FindLastNotOf(s: string, chars: string): (p: int)
    ensures -1 <= p < |s|
    ensures forall k :: p < k < |s| ==> s[k] in chars
    ensures p >= 0 ==> s[p] !in chars
    decreases |s|
  {
    if |s| == 0 then -1
    else if s[|s| - 1] !in chars then |s| - 1
    else FindLastNotOf(s[..|s| - 1], chars)
  }

  /** A search result is determined by the properties that define it. */
  lemma FindFirstOfUnique(s: string, chars: string, from: nat, p: nat)
    requires from <= p <= |s|
    requires forall k :: from <= k < p ==> s[k] !in chars
    requires p < |s| ==> s[p] in chars
    ensures p == FindFirstOf(s, chars, from)
  {
    var q := FindFirstOf(s, chars, from);
    assert q < |s| ==> s[q] in chars;
  }

  // ---------------------------------------------------------------------
  // Tokenising

  /**
   * The maximal runs of non-delimiter characters of `s`, in order: the
   * reference for `tokenize`.
   */
  function Tokens(s: string, delimiters: string): seq<string>
    decreases |s|
  {
    if |s| == 0 then []
    else if s[0] in delimiters then Tokens(s[1..], delimiters)
    else
      var k := FindFirstOf(s, delimiters, 0);
      [s[..k]] + Tokens(s[k..], delimiters)
  }

  /** Leading delimiters contribute no token. */
  lemma {:induction false} TokensSkip(s: string, d: string, p: nat, q: nat)
    requires p <= q <= |s|
    requires forall k :: p <= k < q ==> s[k] in d
    ensures Tokens(s[p..], d) == Tokens(s[q..], d)
    decreases q - p
  {
    if p < q {
      assert s[p..][1..] == s[p + 1..];
      TokensSkip(s, d, p + 1, q);
    }
  }

  /** A token starts at `p` and runs up to the next delimiter. */
  lemma TokensTake(s: string, d: string, p: nat)
    requires p < |s| && s[p] !in d
    ensures Tokens(s[p..], d) == [s[p..FindFirstOf(s, d, p)]] + Tokens(s[FindFirstOf(s, d, p)..], d)
  {
    var q := FindFirstOf(s, d, p);
    var t := s[p..];
    FindFirstOfUnique(t, d, 0, q - p);
    assert t[..q - p] == s[p..q];
    assert t[q - p..] == s[q..];
  }

  /**
   * `tokenize`: appends the tokens of `str` to `tokens`, which it never
   * clears. With `str` and its delimiters, the loop finds each token's first
   * character with `find_first_not_of` and its end with `find_first_of`.
   */
  method Tokenize(str: string, tokens: seq<string>, delimiters: string := WhitespaceChars)
    returns (result: seq<string>)
    ensures result == tokens + Tokens(str, delimiters)
  {
    var lastpos := FindFirstNotOf(str, delimiters, 0);
    var pos := FindFirstOf(str, delimiters, lastpos);
    TokensSkip(str, delimiters, 0, lastpos);
    result := tokens;
    while pos != |str| || lastpos != |str|
      invariant lastpos <= pos <= |str|
      invariant pos == FindFirstOf(str, delimiters, lastpos)
      invariant lastpos < |str| ==> str[lastpos] !in delimiters
      invariant result + Tokens(str[lastpos..], delimiters) == tokens + Tokens(str, delimiters)
      decreases |str| - lastpos
    {
      TokensTake(str, delimiters, lastpos);
      result := result + [str[lastpos..pos]];
      var next := FindFirstNotOf(str, delimiters, pos);
      TokensSkip(str, delimiters, pos, next);
      lastpos := next;
      pos := FindFirstOf(str, delimiters, lastpos);
    }
  }

  /** Every token is non-empty and holds no delimiter. */
  lemma {:induction false} TokensAreWords(s: string, d: string)
    ensures forall t :: t in Tokens(s, d) ==> |t| > 0 && forall c :: c in t ==> c !in d
    decreases |s|
  {
    if |s| > 0 {
      if s[0] in d {
        TokensAreWords(s[1..], d);
      } else {
        var k := FindFirstOf(s, d, 0);
        TokensAreWords(s[k..], d);
        assert forall c :: c in s[..k] ==> c !in d;
      }
    }
  }

  /** The characters of `s` that are not delimiters, in order. */
  function Remove(s: string, d: string): (r: string)
    ensures |r| <= |s|
    decreases |s|
  {
    if |s| == 0 then "" else (if s[0] in d then "" else [s[0]]) + Remove(s[1..], d)
  }

  function Concat(ts: seq<string>): string
    decreases |ts|
  {
    if |ts| == 0 then "" else ts[0] + Concat(ts[1..])
  }

  lemma {:induction false} RemoveWord(w: string, d: string)
    requires forall k :: 0 <= k < |w| ==> w[k] !in d
    ensures Remove(w, d) == w
    decreases |w|
  {
    if |w| > 0 {
      RemoveWord(w[1..], d);
    }
  }

  lemma {:induction false} RemoveAppend(a: string, b: string, d: string)
    ensures Remove(a + b, d) == Remove(a, d) + Remove(b, d)
    decreases |a|
  {
    if |a| > 0 {
      assert (a + b)[1..] == a[1..] + b;
      RemoveAppend(a[1..], b, d);
    } else {
      assert a + b == b;
    }
  }

  /** The tokens together hold exactly the non-delimiter characters of `s`, in order. */
  lemma {:induction false} TokensConcat(s: string, d: string)
    ensures Concat(Tokens(s, d)) == Remove(s, d)
    decreases |s|
  {
    if |s| > 0 {
      if s[0] in d {
        TokensConcat(s[1..], d);
      } else {
        var k := FindFirstOf(s, d, 0);
        TokensConcat(s[k..], d);
        assert s == s[..k] + s[k..];
        RemoveAppend(s[..k], s[k..], d);
        RemoveWord(s[..k], d);
      }
    }
  }

  /** A word without delimiters is a single token. */
  lemma TokensOfWord(w: string, d: string)
    requires |w| > 0 && forall k :: 0 <= k < |w| ==> w[k] !in d
    ensures Tokens(w, d) == [w]
  {
    FindFirstOfUnique(w, d, 0, |w|);
    assert w[..|w|] == w;
  }

  /** A delimiter splits the string: tokens to its left, then tokens to its right. */
  lemma {:induction false} TokensSplit(a: string, c: char, b: string, d: string)
    requires c in d
    ensures Tokens(a + [c] + b, d) == Tokens(a, d) + Tokens(b, d)
    decreases |a|
  {
    var s := a + [c] + b;
    if |a| == 0 {
      assert s[1..] == b;
    } else if a[0] in d {
      assert s[1..] == a[1..] + [c] + b;
      TokensSplit(a[1..], c, b, d);
    } else {
      var k := FindFirstOf(a, d, 0);
      if k < |a| {
        FindFirstOfUnique(s, d, 0, k);
        assert s[..k] == a[..k];
        assert s[k..] == a[k..] + [c] + b;
        TokensSplit(a[k..], c, b, d);
      } else {
        FindFirstOfUnique(s, d, 0, |a|);
        assert s[..|a|] == a;
        assert s[|a|..] == [c] + b;
        assert ([c] + b)[1..] == b;
        assert a[..k] == a && a[k..] == [];
      }
    }
  }

  // ---------------------------------------------------------------------
  // Padding and stripping

  function Spaces(k: nat): (r: string)
    ensures |r| == k && forall j :: 0 <= j < k ==> r[j] == ' '
  {
    seq(k, _ => ' ')
  }

  /** `ljust`: pad on the right with spaces up to `width`. */
  function Ljust(s: string, width: nat): (r: string)
    ensures |s| >= width ==> r == s
    ensures |s| < width ==> |r| == width && r[..|s|] == s
    ensures forall k :: |s| <= k < |r| ==> r[k] == ' '
  {
    if |s| >= width then s else s + Spaces(width - |s|)
  }

  /** `rjust`: pad on the left with spaces up to `width`. */
  function Rjust(s: string, width: nat): (r: string)
    ensures |s| >= width ==> r == s
    ensures |s| < width ==> |r| == width && r[width - |s|..] == s
    ensures forall k :: 0 <= k < |r| - |s| ==> r[k] == ' '
  {
    if |s| >= width then s else Spaces(width - |s|) + s
  }

  /** `strip_left`: drop the longest prefix made of `chars`. */
  function StripLeft(str: string, chars: string := WhitespaceChars): (r: string)
    ensures |r| <= |str| && r == str[|str| - |r|..]
    ensures forall k :: 0 <= k < |str| - |r| ==> str[k] in chars
    ensures |r| > 0 ==> r[0] !in chars
  {
    var pos := FindFirstNotOf(str, chars, 0);
    if pos == |str| then "" else str[pos..]
  }

  /** `strip_right`: drop the longest suffix made of `chars`. */
  function StripRight(str: string, chars: string := WhitespaceChars): (r: string)
    ensures |r| <= |str| && r == str[..|r|]
    ensures forall k :: |r| <= k < |str| ==> str[k] in chars
    ensures |r| > 0 ==> r[|r| - 1] !in chars
  {
    var pos := FindLastNotOf(str, chars);
    if pos == -1 then "" else str[..pos + 1]
  }

  /** `strip`: both ends. */
  function Strip(str: string, chars: string := WhitespaceChars): (r: string)
  {
    StripRight(StripLeft(str, chars), chars)
  }

  /** Stripping leaves a piece of `str` with neither end in `chars`. */
  lemma StripShape(str: string, chars: string)
    ensures var r := Strip(str, chars);
      && |r| <= |str|
      && (|r| > 0 ==> r[0] !in chars && r[|r| - 1] !in chars)
  {
    var l := StripLeft(str, chars);
    var r := StripRight(l, chars);
    if |r| > 0 {
      assert r[0] == l[0];
    }
  }

  /** A string with neither end in `chars` is unchanged by stripping. */
  lemma StripFixed(s: string, chars: string)
    requires |s| > 0 ==> s[0] !in chars && s[|s| - 1] !in chars
    ensures Strip(s, chars) == s
  {
    if |s| > 0 {
      assert FindFirstNotOf(s, chars, 0) == 0;
      assert StripLeft(s, chars) == s[0..] == s;
      assert FindLastNotOf(s, chars) == |s| - 1;
      assert s[..|s|] == s;
    }
  }

  /** `strip` is idempotent. */
  lemma StripIdempotent(str: string, chars: string)
    ensures Strip(Strip(str, chars), chars) == Strip(str, chars)
  {
    StripShape(str, chars);
    StripFixed(Strip(str, chars), chars);
  }

  /** Everything stripped: a string made only of `chars`. */
  lemma StripAll(str: string, chars: string)
    ensures Strip(str, chars) == "" <==> forall k :: 0 <= k < |str| ==> str[k] in chars
  {
    var l := StripLeft(str, chars);
    if |l| > 0 {
      assert str[|str| - |l|] !in chars;
      var r := StripRight(l, chars);
      assert |r| > 0 by {
        assert l[0] !in chars;
      }
    }
  }

  // ---------------------------------------------------------------------
  // Prefix test

  /**
   * `starts_with`: walks `str` from `start` to `end` (`npos` meaning the end
   * of `str`) alongside `prefix` while the characters agree, and answers
   * whether the whole prefix was matched.
   */
  method StartsWith(str: string, prefix: string, start: nat := 0, end: nat := Npos) returns (r: bool)
    requires start <= (if end == Npos then |str| else end) <= |str|
    ensures var stop := if end == Npos then |str| else end;
      r <==> |prefix| <= stop - start && str[start..start + |prefix|] == prefix
  {
    var stop := if end == Npos then |str| else end;
    var p := start;
    var q := 0;
    while p != stop && q != |prefix| && str[p] == prefix[q]
      invariant start <= p <= stop && q == p - start && q <= |prefix|
      invariant str[start..p] == prefix[..q]
    {
      p := p + 1;
      q := q + 1;
    }
    r := q == |prefix|;
    if !r && |prefix| <= stop - start {
      assert str[start..start + |prefix|][q] != prefix[q];
    }
  }

  // ---------------------------------------------------------------------
  // Word wrapping

  /**
   * The lines `wrap` emits for the words still to place, given the current
   * line and whether no word has joined it yet. A word joins the line only
   * when the line, one space and the word fit in `width`; a first word that
   * does not fit is emitted alone.
   */
  function WrapLines(words: seq<string>, line: string, first: bool, width: nat, sub: string): seq<string>
    decreases |words|
  {
    if |words| == 0 then (if first then [] else [line])
    else
      var w := words[0];
      if |line| + 1 + |w| > width then
        if first then [w] + WrapLines(words[1..], sub, true, width, sub)
        else [line] + WrapLines(words[1..], sub + w, false, width, sub)
      else if first then WrapLines(words[1..], line + w, false, width, sub)
      else WrapLines(words[1..], line + " " + w, false, width, sub)
  }

  /** The text of the lines, each followed by a newline. */
  function JoinLines(lines: seq<string>): (r: string)
    ensures |lines| == 0 <==> r == ""
    ensures |r| > 0 ==> r[|r| - 1] == '\n'
    decreases |lines|
  {
    if |lines| == 0 then "" else lines[0] + "\n" + JoinLines(lines[1..])
  }

  lemma JoinLinesCons(line: string, rest: seq<string>)
    ensures JoinLines([line] + rest) == line + "\n" + JoinLines(rest)
  {
    assert ([line] + rest)[1..] == rest;
  }

  /** What `wrap` appends to `ret` for the text `s`. */
  function WrapText(s: string, width: nat, initialIndent: string, subsequentIndent: string): string
  {
    JoinLines(WrapLines(Tokens(s, WhitespaceChars), initialIndent, true, width, subsequentIndent))
  }

  /** A line is acceptable if it fits, or if it is a single word that did not. */
  ghost predicate LineOk(line: string, width: nat, sub: string, all: seq<string>)
  {
    |line| <= width || line in all || exists k :: 0 <= k < |all| && line == sub + all[k]
  }

  /**
   * Every emitted line fits in `width`, unless it is a word that could not
   * share a line: alone (a first word) or after the subsequent indent.
   */
  lemma {:induction false} WrapLinesFit(words: seq<string>, line: string, first: bool, width: nat, sub: string, all: seq<string>)
    requires forall k :: 0 <= k < |words| ==> words[k] in all
    requires !first ==> LineOk(line, width, sub, all)
    ensures forall l :: l in WrapLines(words, line, first, width, sub) ==> LineOk(l, width, sub, all)
    decreases |words|
  {
    if |words| > 0 {
      var w := words[0];
      assert w in all;
      assert forall k :: 0 <= k < |words[1..]| ==> words[1..][k] in all;
      if |line| + 1 + |w| > width {
        if !first {
          var k :| 0 <= k < |all| && all[k] == w;
          assert LineOk(sub + w, width, sub, all);
        }
        WrapLinesFit(words[1..], if first then sub else sub + w, first, width, sub, all);
      } else {
        WrapLinesFit(words[1..], if first then line + w else line + " " + w, false, width, sub, all);
      }
    }
  }

  /** Some line is emitted exactly when there is some word (or a line already started). */
  lemma {:induction false} WrapLinesEmpty(words: seq<string>, line: string, first: bool, width: nat, sub: string)
    ensures WrapLines(words, line, first, width, sub) == [] <==> first && words == []
    decreases |words|
  {
    if |words| > 0 {
      var w := words[0];
      if |line| + 1 + |w| <= width {
        WrapLinesEmpty(words[1..], if first then line + w else line + " " + w, false, width, sub);
      }
    }
  }

  /** With no tokens, `wrap` leaves `ret` unchanged; otherwise it appends text ending in a newline. */
  lemma WrapAppendsLines(s: string, width: nat, initialIndent: string, subsequentIndent: string)
    ensures WrapText(s, width, initialIndent, subsequentIndent) == "" <==> Tokens(s, WhitespaceChars) == []
  {
    WrapLinesEmpty(Tokens(s, WhitespaceChars), initialIndent, true, width, subsequentIndent);
  }

  /**
   * A first word that does not fit after the initial indent is emitted
   * alone, and the word after it is again a first word, placed after the
   * subsequent indent.
   */
  lemma WrapFirstWordAlone(words: seq<string>, init: string, width: nat, sub: string)
    requires |words| > 0 && |init| + 1 + |words[0]| > width
    ensures WrapLines(words, init, true, width, sub) == [words[0]] + WrapLines(words[1..], sub, true, width, sub)
  {
  }

  /**
   * `wrap`: splits `s` into words and appends the wrapped lines to `ret`,
   * which it never clears.
   */
  method Wrap(s: string, ret: string, width: nat := DefaultWidth, initialIndent: string := "", subsequentIndent: string := "")
    returns (out: string)
    ensures out == ret + WrapText(s, width, initialIndent, subsequentIndent)
  {
    var tokens := Tokenize(s, []);
    assert tokens == Tokens(s, WhitespaceChars);
    out := WrapWords(tokens, ret, width, initialIndent, subsequentIndent);
  }

  /** The loop of `wrap` over the words, and the last line. */
  method WrapWords(tokens: seq<string>, ret: string, width: nat, initialIndent: string, subsequentIndent: string)
    returns (out: string)
    ensures out == ret + JoinLines(WrapLines(tokens, initialIndent, true, width, subsequentIndent))
  {
    var line := initialIndent;
    var firstWord := true;
    out := ret;
    for k := 0 to |tokens|
      invariant out + JoinLines(WrapLines(tokens[k..], line, firstWord, width, subsequentIndent))
             == ret + JoinLines(WrapLines(tokens, initialIndent, true, width, subsequentIndent))
    {
      assert tokens[k..] == [tokens[k]] + tokens[k + 1..];
      out, line, firstWord := PlaceWord(out, line, firstWord, tokens[k], width, subsequentIndent, tokens[k + 1..]);
    }
    if !firstWord {
      JoinLinesCons(line, []);
      out := out + (line + "\n");
    }
  }

  /**
   * The body of `wrap`'s loop for one word: join the current line if it
   * fits, otherwise emit a line and start the next one. `rest` stands for
   * the words still to come.
   */
  method PlaceWord(out: string, line: string, firstWord: bool, word: string, width: nat, sub: string,
                   ghost rest: seq<string>)
    returns (out': string, line': string, firstWord': bool)
    ensures out' + JoinLines(WrapLines(rest, line', firstWord', width, sub))
         == out + JoinLines(WrapLines([word] + rest, line, firstWord, width, sub))
  {
    assert ([word] + rest)[0] == word && ([word] + rest)[1..] == rest;
    out', line', firstWord' := out, line, firstWord;
    if |line| + 1 + |word| > width {
      if firstWord {
        var later := WrapLines(rest, sub, true, width, sub);
        assert WrapLines([word] + rest, line, true, width, sub) == [word] + later;
        JoinLinesCons(word, later);
        out' := out + (word + "\n");
        line' := sub;
      } else {
        var later := WrapLines(rest, sub + word, false, width, sub);
        assert WrapLines([word] + rest, line, false, width, sub) == [line] + later;
        JoinLinesCons(line, later);
        out' := out + (line + "\n");
        line' := sub + word;
      }
    } else {
      if firstWord {
        line' := line + word;
        firstWord' := false;
      } else {
        line' := line + " " + word;
      }
    }
  }

  /** `fill`: the wrapped text on its own. */
  method Fill(s: string, width: nat := DefaultWidth, initialIndent: string := "", subsequentIndent: string := "")
    returns (joined: string)
    ensures joined == WrapText(s, width, initialIndent, subsequentIndent)
  {
    joined := Wrap(s, "", width, initialIndent, subsequentIndent);
  }

  // ---------------------------------------------------------------------
  // Distances

  function Min3(x: int, y: int, z: int): (m: int)
    ensures m <= x && m <= y && m <= z && (m == x || m == y || m == z)
  {
    if x <= y && x <= z then x else if y <= z then y else z
  }

  /**
   * Unit-cost edit distance (insertions, deletions, substitutions), by the
   * recurrence on prefixes that the table of `levenshtein_distance` fills.
   */
  function EditDistance(a: string, b: string): nat
    decreases |a| + |b|
  {
    if |a| == 0 then |b|
    else if |b| == 0 then |a|
    else
      var a' := a[..|a| - 1];
      var b' := b[..|b| - 1];
      Min3(EditDistance(a', b) + 1, EditDistance(a, b') + 1,
           EditDistance(a', b') + if a[|a| - 1] == b[|b| - 1] then 0 else 1)
  }

  /**
   * `levenshtein_distance`: fills a (|a|+1) x (|b|+1) table whose row 0 is
   * `j` and column 0 is `i`, each other cell the least of above + 1, left + 1
   * and diagonal + (a[i-1] != b[j-1]).
   */
  method Levenshtein(a: string, b: string) returns (d: int)
    ensures d == EditDistance(a, b)
  {
    var dp := new int[|a| + 1, |b| + 1];
    for i := 0 to |a| + 1
      invariant forall i' :: 0 <= i' < i ==> dp[i', 0] == i'
    {
      dp[i, 0] := i;
    }
    for j := 0 to |b| + 1
      invariant forall i' :: 0 <= i' <= |a| ==> dp[i', 0] == i'
      invariant forall j' :: 0 <= j' < j ==> dp[0, j'] == j'
    {
      dp[0, j] := j;
    }
    assert forall j' :: 0 <= j' <= |b| ==> dp[0, j'] == EditDistance(a[..0], b[..j']);
    for i := 1 to |a| + 1
      invariant forall i', j' :: 0 <= i' < i && 0 <= j' <= |b| ==> dp[i', j'] == EditDistance(a[..i'], b[..j'])
      invariant forall i' :: i <= i' <= |a| ==> dp[i', 0] == i'
    {
      FillRow(dp, a, b, i);
    }
    assert a[..|a|] == a && b[..|b|] == b;
    d := dp[|a|, |b|];
  }

  /** Row `i` of the table, from row `i - 1` and the cell in column 0. */
  method FillRow(dp: array2<int>, a: string, b: string, i: nat)
    requires dp.Length0 == |a| + 1 && dp.Length1 == |b| + 1 && 1 <= i <= |a|
    requires forall j' :: 0 <= j' <= |b| ==> dp[i - 1, j'] == EditDistance(a[..i - 1], b[..j'])
    requires dp[i, 0] == i
    modifies dp
    ensures forall j' :: 0 <= j' <= |b| ==> dp[i, j'] == EditDistance(a[..i], b[..j'])
    ensures forall i', j' :: 0 <= i' < dp.Length0 && 0 <= j' < dp.Length1 && i' != i ==> dp[i', j'] == old(dp[i', j'])
  {
    var ai := a[i - 1];
    assert dp[i, 0] == EditDistance(a[..i], b[..0]);
    for j := 1 to |b| + 1
      invariant forall j' :: 0 <= j' < j ==> dp[i, j'] == EditDistance(a[..i], b[..j'])
      invariant forall i', j' :: 0 <= i' < dp.Length0 && 0 <= j' < dp.Length1 && i' != i ==> dp[i', j'] == old(dp[i', j'])
    {
      var bj := b[j - 1];
      var c := if ai == bj then 0 else 1;
      var above := dp[i - 1, j];
      var left := dp[i, j - 1];
      var diag := dp[i - 1, j - 1];
      EditDistanceStep(a, b, i, j);
      dp[i, j] := Min3(above + 1, left + 1, diag + c);
    }
  }

  /** One cell of the table, in terms of the three before it. */
  lemma EditDistanceStep(a: string, b: string, i: nat, j: nat)
    requires 1 <= i <= |a| && 1 <= j <= |b|
    ensures EditDistance(a[..i], b[..j]) ==
      Min3(EditDistance(a[..i - 1], b[..j]) + 1, EditDistance(a[..i], b[..j - 1]) + 1,
           EditDistance(a[..i - 1], b[..j - 1]) + if a[i - 1] == b[j - 1] then 0 else 1)
  {
    assert a[..i][..i - 1] == a[..i - 1];
    assert b[..j][..j - 1] == b[..j - 1];
  }

  /** Against the empty string the distance is the length. */
  lemma EditDistanceEmpty(a: string)
    ensures EditDistance(a, "") == |a| && EditDistance("", a) == |a|
  {
  }

  /** A string is at distance 0 from itself. */
  lemma {:induction false} EditDistanceSelf(a: string)
    ensures EditDistance(a, a) == 0
    decreases |a|
  {
    if |a| > 0 {
      EditDistanceSelf(a[..|a| - 1]);
    }
  }

  /** The distance is at least the difference of the lengths and at most their sum. */
  lemma {:induction false} EditDistanceBounds(a: string, b: string)
    ensures EditDistance(a, b) >= |a| - |b| && EditDistance(a, b) >= |b| - |a|
    ensures EditDistance(a, b) <= |a| + |b|
    decreases |a| + |b|
  {
    if |a| > 0 && |b| > 0 {
      EditDistanceBounds(a[..|a| - 1], b);
      EditDistanceBounds(a, b[..|b| - 1]);
      EditDistanceBounds(a[..|a| - 1], b[..|b| - 1]);
    }
  }

  /** The character `hamming_distance` reads at `k`: past the end it is the terminating NUL. */
  function CharAt(b: string, k: nat): char
  {
    if k < |b| then b[k] else '\0'
  }

  /** The number of indices `k < |a|` at which `a` and `b` differ. */
  function HammingCount(a: string, b: string): (r: nat)
    ensures r <= |a|
    decreases |a|
  {
    if |a| == 0 then 0
    else HammingCount(a[..|a| - 1], b) + if a[|a| - 1] == CharAt(b, |a| - 1) then 0 else 1
  }

  /**
   * `hamming_distance`: compares `a[k]` with `b[k]` for every index of `a`.
   * The source reads `b` at those indices, so `b` must be at least as long
   * as `a` apart from the terminator at `b[|b|]`.
   */
  method Hamming(a: string, b: string) returns (res: int)
    requires |a| <= |b| + 1
    ensures res == HammingCount(a, b)
    ensures 0 <= res <= |a|
  {
    res := 0;
    for k := 0 to |a|
      invariant res == HammingCount(a[..k], b)
    {
      assert a[..k + 1][..k] == a[..k];
      res := res + if a[k] == CharAt(b, k) then 0 else 1;
    }
    assert a[..|a|] == a;
  }

  /** The count depends on `b` only at the indices of `a`. */
  lemma {:induction false} HammingPrefix(a: string, b: string)
    requires |a| <= |b|
    ensures HammingCount(a, b) == HammingCount(a, b[..|a|])
    decreases |a|
  {
    if |a| > 0 {
      HammingPrefix(a[..|a| - 1], b);
      HammingPrefix(a[..|a| - 1], b[..|a|]);
      assert b[..|a|][..|a| - 1] == b[..|a| - 1];
    }
  }

  /** A string is at Hamming distance 0 from any string it is a prefix of, and only from those. */
  lemma {:induction false} HammingZero(a: string, b: string)
    requires |a| <= |b|
    ensures HammingCount(a, b) == 0 <==> a == b[..|a|]
    decreases |a|
  {
    if |a| > 0 {
      HammingZero(a[..|a| - 1], b);
      if a == b[..|a|] {
        assert a[..|a| - 1] == b[..|a| - 1];
      }
      if HammingCount(a, b) == 0 {
        assert a == a[..|a| - 1] + [a[|a| - 1]];
        assert b[..|a|] == b[..|a| - 1] + [b[|a| - 1]];
      }
    }
  }

  /** For strings of equal length, the edit distance is at most the Hamming distance. */
  lemma {:induction false} EditDistanceAtMostHamming(a: string, b: string)
    requires |a| == |b|
    ensures EditDistance(a, b) <= HammingCount(a, b)
    decreases |a|
  {
    if |a| > 0 {
      var a' := a[..|a| - 1];
      var b' := b[..|b| - 1];
      EditDistanceAtMostHamming(a', b');
      HammingPrefix(a', b);
      assert b[..|a'|] == b';
    }
  }
}
