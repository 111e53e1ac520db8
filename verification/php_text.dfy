/**
 * String handling of the contact endpoint (contact.php): PHP's `trim`, the
 * HTML escaping done by `htmlspecialchars(..., ENT_QUOTES, 'UTF-8')`, the
 * byte length reported by `strlen`, and PHP's `empty` on strings.
 *
 * Strings are sequences of Unicode scalar values; their UTF-8 encoding is
 * what PHP measures.
 */
module PhpText {

  /** The characters PHP's `trim` removes by default: " \t\n\r\0\x0B". */
  predicate IsTrimSpace(c: char)
  {
    c == ' ' || c == '\t' || c == '\n' || c == '\r' || c == '\0' || c == '\U{0B}'
  }

  /** PHP `trim($s)`: the trim characters removed from both ends. */
  function Trim(s: string): (r: string)
    ensures |r| <= |s|
    decreases |s|
  {
    if s != [] && IsTrimSpace(s[0]) then Trim(s[1..])
    else if s != [] && IsTrimSpace(s[|s| - 1]) then Trim(s[..|s| - 1])
    else s
  }

  /** Every character of `s` is a trim character. */
  predicate AllTrimSpace(s: string)
  {
    forall k :: 0 <= k < |s| ==> IsTrimSpace(s[k])
  }

  /** `Trim(s)` is `s[i..j]`, and what lies outside `i..j` is all trim characters. */
  predicate TrimShape(s: string, i: int, j: int)
  {
    0 <= i <= j <= |s| && Trim(s) == s[i..j] && AllTrimSpace(s[..i]) && AllTrimSpace(s[j..])
  }

  /** Removing a leading trim character shifts the shape by one. */
  lemma TrimShapeFront(s: string, i: int, j: int)
    requires s != [] && IsTrimSpace(s[0]) && TrimShape(s[1..], i, j)
    ensures TrimShape(s, i + 1, j + 1)
  {
    var t := s[1..];
    assert t[i..j] == s[i + 1..j + 1];
    assert s[j + 1..] == t[j..];
    var removed := s[..i + 1];
    forall k | 0 <= k < |removed|
      ensures IsTrimSpace(removed[k])
    {
      if k > 0 {
        assert removed[k] == t[..i][k - 1];
      }
    }
  }

  /** Removing a trailing trim character (once the front is clear) keeps the shape. */
  lemma TrimShapeBack(s: string, i: int, j: int)
    requires s != [] && !IsTrimSpace(s[0]) && IsTrimSpace(s[|s| - 1]) && TrimShape(s[..|s| - 1], i, j)
    ensures TrimShape(s, i, j)
  {
    var t := s[..|s| - 1];
    assert t[i..j] == s[i..j];
    assert s[..i] == t[..i];
    forall k | 0 <= k < |s| - j
      ensures IsTrimSpace(s[j..][k])
    {
      if k < |t| - j {
        assert s[j..][k] == t[j..][k];
      }
    }
  }

  /** `trim` keeps a contiguous part of `s`, and everything it removes is a trim character. */
  lemma {:induction false} TrimRemovesOnlySpace(s: string)
    ensures exists i, j :: TrimShape(s, i, j)
    decreases |s|
  {
    if s != [] && IsTrimSpace(s[0]) {
      TrimRemovesOnlySpace(s[1..]);
      var i, j :| TrimShape(s[1..], i, j);
      TrimShapeFront(s, i, j);
    } else if s != [] && IsTrimSpace(s[|s| - 1]) {
      TrimRemovesOnlySpace(s[..|s| - 1]);
      var i, j :| TrimShape(s[..|s| - 1], i, j);
      TrimShapeBack(s, i, j);
    } else {
      assert s[0..|s|] == s;
      assert TrimShape(s, 0, |s|);
    }
  }

  /** What `trim` returns neither starts nor ends with a trim character. */
  lemma {:induction false} TrimEnds(s: string)
    ensures Trim(s) == [] || (!IsTrimSpace(Trim(s)[0]) && !IsTrimSpace(Trim(s)[|Trim(s)| - 1]))
    decreases |s|
  {
    if s != [] && IsTrimSpace(s[0]) {
      TrimEnds(s[1..]);
    } else if s != [] && IsTrimSpace(s[|s| - 1]) {
      TrimEnds(s[..|s| - 1]);
    }
  }

  /** The replacement `htmlspecialchars` with ENT_QUOTES uses for one character. */
  function EscapeChar(c: char): string
  {
    match c
    case '&' => "&amp;"
    case '"' => "&quot;"
    case '\'' => "&#039;"
    case '<' => "&lt;"
    case '>' => "&gt;"
    case _ => [c]
  }

  /** The characters that never survive escaping. */
  predicate IsMarkup(c: char)
  {
    c == '<' || c == '>' || c == '"' || c == '\''
  }

  /**
   * `htmlspecialchars($s, ENT_QUOTES, 'UTF-8')` with double encoding on: the
   * result holds no `<`, `>`, `"` or `'`, and every `&` in it starts one of
   * the five entities.
   */
  function Escape(s: string): (r: string)
    ensures |r| >= |s|
    ensures forall i :: 0 <= i < |r| ==> !IsMarkup(r[i])
  {
    if s == [] then [] else EscapeChar(s[0]) + Escape(s[1..])
  }

  /** Decodes the five entities Escape produces; the reference inverse of Escape. */
  function Unescape(s: string): string
  {
    if s == [] then []
    else if |s| >= 5 && s[..5] == "&amp;" then "&" + Unescape(s[5..])
    else if |s| >= 6 && s[..6] == "&quot;" then "\"" + Unescape(s[6..])
    else if |s| >= 6 && s[..6] == "&#039;" then "'" + Unescape(s[6..])
    else if |s| >= 4 && s[..4] == "&lt;" then "<" + Unescape(s[4..])
    else if |s| >= 4 && s[..4] == "&gt;" then ">" + Unescape(s[4..])
    else [s[0]] + Unescape(s[1..])
  }

  /** Decoding an entity at the front: one step of Unescape for each of the five entities. */
  lemma UnescapeEntity(c: char, rest: string)
    requires c == '&' || IsMarkup(c)
    ensures Unescape(EscapeChar(c) + rest) == [c] + Unescape(rest)
  {
    var x := EscapeChar(c) + rest;
    if c == '&' {
      assert x[..5] == "&amp;" && x[5..] == rest;
    } else if c == '"' {
      assert x[..5][1] == 'q';
      assert x[..6] == "&quot;" && x[6..] == rest;
    } else if c == '\'' {
      assert x[..5][1] == '#' && x[..6][1] == '#';
      assert x[..6] == "&#039;" && x[6..] == rest;
    } else {
      UnescapeAngle(c, rest);
    }
  }

  /** The `&lt;` and `&gt;` cases of UnescapeEntity. */
  lemma UnescapeAngle(c: char, rest: string)
    requires c == '<' || c == '>'
    ensures Unescape(EscapeChar(c) + rest) == [c] + Unescape(rest)
  {
    var x := EscapeChar(c) + rest;
    var e := EscapeChar(c);
    assert x[..4] == e && x[4..] == rest;
    assert |x| >= 5 ==> x[..5][1] == e[1];
    assert |x| >= 6 ==> x[..6][1] == e[1];
  }

  /** A character that is not escaped decodes as itself. */
  lemma UnescapePlain(c: char, rest: string)
    requires c != '&' && !IsMarkup(c)
    ensures Unescape(EscapeChar(c) + rest) == [c] + Unescape(rest)
  {
    var x := EscapeChar(c) + rest;
    assert x[0] == c && x[1..] == rest;
    assert |x| >= 4 ==> x[..4][0] == c;
    assert |x| >= 5 ==> x[..5][0] == c;
    assert |x| >= 6 ==> x[..6][0] == c;
  }

  /** Decoding undoes the encoding of one character, whatever follows it. */
  lemma UnescapeOne(c: char, rest: string)
    ensures Unescape(EscapeChar(c) + rest) == [c] + Unescape(rest)
  {
    if c == '&' || IsMarkup(c) {
      UnescapeEntity(c, rest);
    } else {
      UnescapePlain(c, rest);
    }
  }

  /** Escaping loses nothing: decoding the entities gives the input back. */
  lemma {:induction false} UnescapeEscape(s: string)
    ensures Unescape(Escape(s)) == s
  {
    if s != [] {
      UnescapeOne(s[0], Escape(s[1..]));
      UnescapeEscape(s[1..]);
      assert s == [s[0]] + s[1..];
    }
  }

  /** Escaping is injective: different inputs give different outputs. */
  lemma EscapeInjective(s: string, t: string)
    requires Escape(s) == Escape(t)
    ensures s == t
  {
    UnescapeEscape(s);
    UnescapeEscape(t);
  }

  /**
   * Escaping is not idempotent: a second pass encodes the `&` of the entities
   * the first pass produced.
   */
  lemma EscapeTwiceDiffers()
    ensures Escape("&") == "&amp;"
    ensures Escape(Escape("&")) == "&amp;amp;"
  {
    assert Escape("&") == "&amp;" + Escape([]);
    var e := "&amp;";
    assert Escape(e) == "&amp;" + Escape(e[1..]);
    assert e[1..] == "amp;";
    assert Escape("amp;") == "a" + Escape("mp;");
    assert Escape("mp;") == "m" + Escape("p;");
    assert Escape("p;") == "p" + Escape(";");
    assert Escape(";") == ";" + Escape([]);
  }

  /** The characters Escape rewrites. */
  predicate IsSpecial(c: char)
  {
    c == '&' || IsMarkup(c)
  }

  /** Escape leaves a string unchanged exactly when it holds none of the five special characters. */
  lemma {:induction false} EscapeFixedPoint(s: string)
    ensures Escape(s) == s <==> forall i :: 0 <= i < |s| ==> !IsSpecial(s[i])
  {
    if s != [] {
      EscapeFixedPoint(s[1..]);
      assert forall j :: 0 <= j < |s| - 1 ==> s[1..][j] == s[j + 1];
      if IsSpecial(s[0]) {
        assert |EscapeChar(s[0])| >= 4;
        assert |Escape(s)| > |s|;
      } else {
        assert EscapeChar(s[0]) == [s[0]];
        assert Escape(s) == [s[0]] + Escape(s[1..]);
        if Escape(s) == s {
          assert Escape(s)[1..] == Escape(s[1..]);
        }
      }
    }
  }

  /** A string that neither starts nor ends with a trim character is its own `trim`. */
  lemma TrimUntouched(s: string)
    requires s == [] || (!IsTrimSpace(s[0]) && !IsTrimSpace(s[|s| - 1]))
    ensures Trim(s) == s
  {
  }

  /** The number of bytes `c` takes in UTF-8. */
  function Utf8Width(c: char): (n: nat)
    ensures 1 <= n <= 4
    ensures n == 1 <==> (c as int) < 0x80
  {
    if (c as int) < 0x80 then 1
    else if (c as int) < 0x800 then 2
    else if (c as int) < 0x10000 then 3
    else 4
  }

  /** PHP `strlen`: the length in bytes of the UTF-8 encoding of `s`. */
  function ByteLen(s: string): (n: nat)
    ensures |s| <= n <= 4 * |s|
  {
    if s == [] then 0 else Utf8Width(s[0]) + ByteLen(s[1..])
  }

  /** Byte lengths add up over concatenation. */
  lemma {:induction false} ByteLenConcat(s: string, t: string)
    ensures ByteLen(s + t) == ByteLen(s) + ByteLen(t)
  {
    if s != [] {
      assert (s + t)[0] == s[0];
      assert (s + t)[1..] == s[1..] + t;
      ByteLenConcat(s[1..], t);
    } else {
      assert s + t == t;
    }
  }

  /** A string of ASCII characters has as many bytes as characters. */
  lemma {:induction false} AsciiByteLen(s: string)
    requires forall i :: 0 <= i < |s| ==> (s[i] as int) < 0x80
    ensures ByteLen(s) == |s|
  {
    if s != [] {
      AsciiByteLen(s[1..]);
    }
  }

  /**
   * The sanitizer of contact.php: trim, then `strip_tags` (passed in, since
   * its HTML tokenizer is not part of this model), then escape.
   */
  function Sanitize(input: string, stripTags: string -> string): (r: string)
    ensures forall i :: 0 <= i < |r| ==> !IsMarkup(r[i])
  {
    Escape(stripTags(Trim(input)))
  }

  /** PHP `empty()` on a string: true for "" and for "0". */
  predicate IsEmpty(s: string): (b: bool)
    ensures b ==> |s| <= 1
  {
    s == "" || s == "0"
  }

  /** One `&` typed by the user occupies five bytes once sanitized. */
  lemma AmpersandCountsFive(stripTags: string -> string)
    requires stripTags("&") == "&"
    ensures Sanitize("&", stripTags) == "&amp;"
    ensures ByteLen(Sanitize("&", stripTags)) == 5
  {
    TrimUntouched("&");
    assert Escape("&") == "&amp;" + Escape([]);
    AsciiByteLen("&amp;");
  }

  /**
   * Sanitizing is not idempotent: sanitizing the sanitized form of "&" encodes
   * the ampersand of its entity a second time.
   */
  lemma SanitizeTwiceDiffers(stripTags: string -> string)
    requires stripTags("&") == "&" && stripTags("&amp;") == "&amp;"
    ensures Sanitize(Sanitize("&", stripTags), stripTags) == "&amp;amp;"
    ensures Sanitize(Sanitize("&", stripTags), stripTags) != Sanitize("&", stripTags)
  {
    AmpersandCountsFive(stripTags);
    TrimUntouched("&amp;");
    EscapeTwiceDiffers();
  }
}
