/**
 * The JavaScript built-ins the worker relies on, stated over Dafny strings:
 * `startsWith`, `includes`, `split`, truthiness of an optional string,
 * decimal rendering of a status code, and the one-pass character-to-entity
 * replacement shared by `escapeHtml` and `escapeXml`.
 */
module Builtins {

  datatype Option<+T> = None | Some(value: T) {
    /** `x || fallback` / a destructuring default: the value, or the fallback when absent. */
    function GetOr(default: T): T {
      match this
      case Some(v) => v
      case None => default
    }
  }

  /** The exceptions the modelled code can raise. */
  datatype Error =
    | NetworkError   // `fetch` rejected
    | InvalidUrl     // `new URL(...)` threw a TypeError
    | MalformedUri   // `decodeURIComponent` threw a URIError
    | BodyNotAllowed // `new Response(body, {status})` threw a TypeError: the status forbids a body
    | StatusOutOfRange // `new Response(body, {status})` threw a RangeError: the status is outside 200..599

  /** A value or the exception that escaped while computing it. */
  datatype Result<+T> = Ok(value: T) | Err(error: Error)

  // ---------------------------------------------------------------------------
  // startsWith / includes

  predicate StartsWith(s: string, prefix: string) {
    |prefix| <= |s| && s[..|prefix|] == prefix
  }

  predicate OccursAt(s: string, part: string, i: int) {
    0 <= i && i + |part| <= |s| && s[i..i + |part|] == part
  }

  /** `s.includes(part)` */
  predicate Contains(s: string, part: string) {
    exists i | 0 <= i <= |s| - |part| :: OccursAt(s, part, i)
  }

  lemma StartsWithAppend(prefix: string, rest: string)
    ensures StartsWith(prefix + rest, prefix)
  {
    assert (prefix + rest)[..|prefix|] == prefix;
  }

  /** Multiplication distributes over a successor. */
  lemma MulSucc(c: int, d: int)
    ensures (c + 1) * d == c * d + d
  {
  }

  /** A prefix one element longer is the shorter prefix and that element. */
  lemma TakeOneMore<T>(s: seq<T>, i: nat)
    requires i < |s|
    ensures s[..i + 1] == s[..i] + [s[i]]
  {
  }

  /**
   * A left-to-right rewrite `f` that copies the first element wherever
   * `copies` holds copies a whole prefix along which `copies` holds everywhere.
   */
  lemma {:induction false} CopiedPrefix<T>(f: seq<T> -> seq<T>, copies: seq<T> -> bool, s: seq<T>, k: nat)
    requires k <= |s|
    requires forall t {:trigger copies(t)} :: |t| > 0 && copies(t) ==> f(t) == [t[0]] + f(t[1..])
    requires forall i :: 0 <= i < k ==> copies(s[i..])
    ensures f(s) == s[..k] + f(s[k..])
    decreases k
  {
    if k == 0 {
      assert s[..0] + s[0..] == s;
    } else {
      CopiedPrefix(f, copies, s, k - 1);
      var t := s[k - 1..];
      assert copies(t);
      assert t[1..] == s[k..];
      assert f(t) == [s[k - 1]] + f(s[k..]);
      assert s[..k] == s[..k - 1] + [s[k - 1]];
      AppendAssoc(s[..k - 1], [s[k - 1]], f(s[k..]));
    }
  }

  /** The three parts of a concatenation can be sliced back out of it. */
  lemma SliceParts<T>(a: seq<T>, b: seq<T>, c: seq<T>)
    ensures var g := a + b + c;
            g[..|a|] == a && g[|a|..|a| + |b|] == b && g[|a| + |b|..] == c && g[|a|..] == b + c
  {
    var g := a + b + c;
    assert g[..|a|] == a;
    assert g[|a|..|a| + |b|] == b;
    assert g[|a| + |b|..] == c;
    assert g[|a|..] == b + c;
  }

  /** The elements of a slice are those of the sequence, shifted. */
  lemma SliceElements<T>(g: seq<T>, i: nat, x: seq<T>)
    requires i + |x| <= |g| && g[i..i + |x|] == x
    ensures forall k :: i <= k < i + |x| ==> g[k] == x[k - i]
  {
    forall k | i <= k < i + |x| ensures g[k] == x[k - i] {
      assert g[i..i + |x|][k - i] == g[k];
    }
  }

  /** Inserting `x` at position `i` keeps what was before and after `i` around it. */
  lemma InsertAt<T>(s: seq<T>, x: seq<T>, i: nat)
    requires i <= |s|
    ensures var r := s[..i] + x + s[i..];
            |r| == |s| + |x| && r[..i] == s[..i] && r[i..i + |x|] == x && r[i + |x|..] == s[i..]
  {
    SliceParts(s[..i], x, s[i..]);
  }

  /** Concatenation is associative. */
  lemma AppendAssoc<T>(a: seq<T>, b: seq<T>, c: seq<T>)
    ensures (a + b) + c == a + (b + c)
  {
  }


  /** JavaScript truthiness of a value that is either absent or a string. */
  predicate Truthy(s: Option<string>) {
    s.Some? && s.value != ""
  }

  /** `String(v)` of an optional string: a missing value prints as "undefined". */
  function Show(s: Option<string>): string {
    s.GetOr("undefined")
  }

  // ---------------------------------------------------------------------------
  // split

  /** `s.split(sep)` for a one-character separator. */
  function Split(s: string, sep: char): (parts: seq<string>)
    ensures |parts| >= 1
    ensures forall k :: 0 <= k < |parts| ==> sep !in parts[k]
    decreases |s|
  {
    if |s| == 0 then [""]
    else
      var rest := Split(s[1..], sep);
      if s[0] == sep then [""] + rest
      else [[s[0]] + rest[0]] + rest[1..]
  }

  /** `parts.join(sep)` */
  function Join(parts: seq<string>, sep: char): string
    requires |parts| >= 1
    decreases |parts|
  {
    if |parts| == 1 then parts[0] else parts[0] + [sep] + Join(parts[1..], sep)
  }

  /** Joining the pieces of a split gives back the original string. */
  lemma {:induction false} JoinSplit(s: string, sep: char)
    ensures Join(Split(s, sep), sep) == s
    decreases |s|
  {
    if |s| > 0 {
      var rest := Split(s[1..], sep);
      JoinSplit(s[1..], sep);
      if s[0] == sep {
        assert Split(s, sep)[1..] == rest;
        assert s == [s[0]] + s[1..];
      } else {
        var parts := Split(s, sep);
        if |rest| == 1 {
          assert parts == [[s[0]] + rest[0]];
        } else {
          assert parts[1..] == rest[1..];
          assert Join(rest, sep) == rest[0] + [sep] + Join(rest[1..], sep);
        }
        assert s == [s[0]] + s[1..];
      }
    }
  }

  /** The characters of `s` before the first `sep` (all of `s` when there is none). */
  function UpTo(s: string, sep: char): (r: string)
    ensures StartsWith(s, r) && sep !in r
    ensures |r| < |s| ==> s[|r|] == sep
    decreases |s|
  {
    if |s| == 0 || s[0] == sep then "" else [s[0]] + UpTo(s[1..], sep)
  }

  lemma {:induction false} SplitHead(s: string, sep: char)
    ensures Split(s, sep)[0] == UpTo(s, sep)
    decreases |s|
  {
    if |s| > 0 && s[0] != sep {
      SplitHead(s[1..], sep);
    }
  }

  /** A string without the separator splits into itself alone. */
  lemma {:induction false} SplitWithoutSep(s: string, sep: char)
    requires sep !in s
    ensures Split(s, sep) == [s]
    decreases |s|
  {
    if |s| > 0 {
      SplitWithoutSep(s[1..], sep);
      assert [s[0]] + s[1..] == s;
    }
  }

  /** `s.split(sep)[k]`; `None` stands for `undefined` when there are fewer pieces. */
  function Segment(s: string, sep: char, k: nat): Option<string> {
    var parts := Split(s, sep);
    if k < |parts| then Some(parts[k]) else None
  }

  /**
   * Element 2 of `path.split("/")` for a path `/word/rest` is the part of
   * `rest` before its first slash: `/detail/abc/x` gives `abc`, `/detail/` gives "".
   */
  lemma {:induction false} SecondSegment(word: string, rest: string)
    requires '/' !in word
    ensures Segment("/" + word + "/" + rest, '/', 2) == Some(UpTo(rest, '/'))
  {
    var s := "/" + word + "/" + rest;
    assert s[1..] == word + "/" + rest;
    WordThenSlash(word, rest);
    SplitHead(rest, '/');
  }

  lemma {:induction false} WordThenSlash(word: string, rest: string)
    requires '/' !in word
    ensures Split(word + "/" + rest, '/') == [word] + Split(rest, '/')
    decreases |word|
  {
    if |word| == 0 {
      assert word + "/" + rest == "/" + rest;
      assert ("/" + rest)[1..] == rest;
    } else {
      assert (word + "/" + rest)[1..] == word[1..] + "/" + rest;
      WordThenSlash(word[1..], rest);
      assert [word[0]] + word[1..] == word;
    }
  }

  // ---------------------------------------------------------------------------
  // Decimal rendering of a status code (template literal `${status}`)

  function DigitChar(d: nat): (c: char)
    requires d < 10
    ensures '0' <= c <= '9'
  {
    "0123456789"[d]
  }

  function NatToString(n: nat): (r: string)
    ensures |r| >= 1
    ensures forall k :: 0 <= k < |r| ==> '0' <= r[k] <= '9'
    decreases n
  {
    if n < 10 then [DigitChar(n)] else NatToString(n / 10) + [DigitChar(n % 10)]
  }

  function ParseDigits(s: string): nat
    decreases |s|
  {
    if |s| == 0 then 0
    else
      var d := s[|s| - 1] as int - '0' as int;
      ParseDigits(s[..|s| - 1]) * 10 + (if 0 <= d < 10 then d else 0)
  }

  /** The decimal text of a status code reads back as that code. */
  lemma {:induction false} NatToStringRoundTrip(n: nat)
    ensures ParseDigits(NatToString(n)) == n
    decreases n
  {
    var r := NatToString(n);
    if n < 10 {
      DigitValue(n);
      assert r[..0] == "";
    } else {
      NatToStringRoundTrip(n / 10);
      assert r[..|r| - 1] == NatToString(n / 10);
      DigitValue(n % 10);
      DivMod10(n);
    }
  }

  /** A digit character reads back as its digit. */
  lemma DigitValue(d: nat)
    requires d < 10
    ensures DigitChar(d) as int - '0' as int == d
  {
  }

  lemma DivMod10(n: nat)
    ensures n == n / 10 * 10 + n % 10
  {
  }

  // ---------------------------------------------------------------------------
  // Entity escaping: `text.replace(/[&<>"']/g, (c) => map[c])`

  /** The entity for one character; `apos` is the entity the caller's map uses for `'`. */
  function EntityFor(c: char, apos: string): string {
    match c
    case '&' => "&amp;"
    case '<' => "&lt;"
    case '>' => "&gt;"
    case '"' => "&quot;"
    case '\'' => apos
    case _ => [c]
  }

  /** One left-to-right pass over the text replacing each special character by its entity. */
  function Escape(text: string, apos: string): string
    decreases |text|
  {
    if |text| == 0 then "" else EntityFor(text[0], apos) + Escape(text[1..], apos)
  }

  predicate IsSpecial(c: char) {
    c == '&' || c == '<' || c == '>' || c == '"' || c == '\''
  }

  /** An apostrophe entity of the form `&...;` free of the other special characters. */
  predicate WellFormedApos(apos: string) {
    |apos| >= 2 && apos[0] == '&' && apos[|apos| - 1] == ';' &&
    (forall k :: 0 <= k < |apos| - 1 ==> apos[k] != ';') &&
    forall k :: 0 <= k < |apos| ==> apos[k] != '<' && apos[k] != '>' && apos[k] != '"' && apos[k] != '\''
  }

  /** Decoder for the five entities `Escape` produces; anything else is copied. */
  function Unescape(s: string, apos: string): string
    requires |apos| > 0
    decreases |s|
  {
    if |s| == 0 then ""
    else if StartsWith(s, "&amp;") then "&" + Unescape(s[5..], apos)
    else if StartsWith(s, "&lt;") then "<" + Unescape(s[4..], apos)
    else if StartsWith(s, "&gt;") then ">" + Unescape(s[4..], apos)
    else if StartsWith(s, "&quot;") then "\"" + Unescape(s[6..], apos)
    else if StartsWith(s, apos) then "'" + Unescape(s[|apos|..], apos)
    else [s[0]] + Unescape(s[1..], apos)
  }

  /** The escaped text holds no `<`, `>`, `"` or `'`. */
  lemma {:induction false} EscapeRemovesSpecials(text: string, apos: string)
    requires WellFormedApos(apos)
    ensures forall k :: 0 <= k < |Escape(text, apos)| ==>
      Escape(text, apos)[k] !in {'<', '>', '"', '\''}
    decreases |text|
  {
    if |text| > 0 {
      EscapeRemovesSpecials(text[1..], apos);
    }
  }

  /** Text without special characters is left unchanged. */
  lemma {:induction false} EscapeIdentityWithoutSpecials(text: string, apos: string)
    requires forall k :: 0 <= k < |text| ==> !IsSpecial(text[k])
    ensures Escape(text, apos) == text
    decreases |text|
  {
    if |text| > 0 {
      EscapeIdentityWithoutSpecials(text[1..], apos);
      assert text == [text[0]] + text[1..];
    }
  }

  /** Decoding undoes escaping: `Escape` loses no information. */
  lemma {:induction false} UnescapeEscape(text: string, apos: string)
    requires WellFormedApos(apos)
    requires apos != "&amp;" && apos != "&lt;" && apos != "&gt;" && apos != "&quot;"
    ensures Unescape(Escape(text, apos), apos) == text
    decreases |text|
  {
    if |text| > 0 {
      var c := text[0];
      var tail := Escape(text[1..], apos);
      var e := EntityFor(c, apos);
      assert Escape(text, apos) == e + tail;
      UnescapeEscape(text[1..], apos);
      UnescapeEntity(c, apos, tail);
      assert text == [c] + text[1..];
    }
  }

  /** Decoding an entity followed by more text yields its character, then the decoded rest. */
  lemma UnescapeEntity(c: char, apos: string, tail: string)
    requires WellFormedApos(apos)
    requires apos != "&amp;" && apos != "&lt;" && apos != "&gt;" && apos != "&quot;"
    ensures Unescape(EntityFor(c, apos) + tail, apos) == [c] + Unescape(tail, apos)
  {
    match c
    case '&' => UnescapeAmp(apos, tail);
    case '<' => UnescapeLt(apos, tail);
    case '>' => UnescapeGt(apos, tail);
    case '"' => UnescapeQuot(apos, tail);
    case '\'' => UnescapeApos(apos, tail);
    case _ => UnescapePlain(c, apos, tail);
  }

  lemma UnescapeAmp(apos: string, tail: string)
    requires |apos| > 0
    ensures Unescape("&amp;" + tail, apos) == "&" + Unescape(tail, apos)
  {
    var s := "&amp;" + tail;
    assert s[..5] == "&amp;" && s[5..] == tail;
  }

  lemma UnescapeLt(apos: string, tail: string)
    requires |apos| > 0
    ensures Unescape("&lt;" + tail, apos) == "<" + Unescape(tail, apos)
  {
    var s := "&lt;" + tail;
    assert !StartsWith(s, "&amp;") by { assert s[1] == 'l'; }
    assert s[..4] == "&lt;" && s[4..] == tail;
  }

  lemma UnescapeGt(apos: string, tail: string)
    requires |apos| > 0
    ensures Unescape("&gt;" + tail, apos) == ">" + Unescape(tail, apos)
  {
    var s := "&gt;" + tail;
    assert !StartsWith(s, "&amp;") by { assert s[1] == 'g'; }
    assert !StartsWith(s, "&lt;") by { assert s[1] == 'g'; }
    assert s[..4] == "&gt;" && s[4..] == tail;
  }

  lemma UnescapeQuot(apos: string, tail: string)
    requires |apos| > 0
    ensures Unescape("&quot;" + tail, apos) == "\"" + Unescape(tail, apos)
  {
    var s := "&quot;" + tail;
    assert !StartsWith(s, "&amp;") by { assert s[1] == 'q'; }
    assert !StartsWith(s, "&lt;") by { assert s[1] == 'q'; }
    assert !StartsWith(s, "&gt;") by { assert s[1] == 'q'; }
    assert s[..6] == "&quot;" && s[6..] == tail;
  }

  lemma UnescapeApos(apos: string, tail: string)
    requires WellFormedApos(apos)
    requires apos != "&amp;" && apos != "&lt;" && apos != "&gt;" && apos != "&quot;"
    ensures Unescape(apos + tail, apos) == "'" + Unescape(tail, apos)
  {
    var s := apos + tail;
    AposNotOtherEntity(apos, tail);
    assert s[..|apos|] == apos && s[|apos|..] == tail;
  }

  lemma UnescapePlain(c: char, apos: string, tail: string)
    requires WellFormedApos(apos) && c != '&'
    ensures Unescape([c] + tail, apos) == [c] + Unescape(tail, apos)
  {
    var s := [c] + tail;
    assert s[0] == c && s[1..] == tail;
  }

  /**
   * An apostrophe entity that is none of the four fixed ones is not
   * mistaken for them by the decoder, provided it is no prefix-extension of them.
   */
  lemma AposNotOtherEntity(apos: string, tail: string)
    requires WellFormedApos(apos)
    requires apos != "&amp;" && apos != "&lt;" && apos != "&gt;" && apos != "&quot;"
    ensures !StartsWith(apos + tail, "&amp;") && !StartsWith(apos + tail, "&lt;")
    ensures !StartsWith(apos + tail, "&gt;") && !StartsWith(apos + tail, "&quot;")
  {
    FixedEntityNotPrefix(apos, tail, "&amp;");
    FixedEntityNotPrefix(apos, tail, "&lt;");
    FixedEntityNotPrefix(apos, tail, "&gt;");
    FixedEntityNotPrefix(apos, tail, "&quot;");
  }

  /** Two `&...;` entities with no `;` inside cannot be proper prefixes of one another. */
  lemma FixedEntityNotPrefix(apos: string, tail: string, ent: string)
    requires WellFormedApos(apos) && apos != ent
    requires |ent| >= 2 && ent[|ent| - 1] == ';'
    requires forall k :: 0 <= k < |ent| - 1 ==> ent[k] != ';'
    ensures !StartsWith(apos + tail, ent)
  {
    var s := apos + tail;
    if |ent| <= |s| {
      if |ent| < |apos| {
        assert s[|ent| - 1] == apos[|ent| - 1] != ent[|ent| - 1];
      } else if |ent| > |apos| {
        assert s[|apos| - 1] == apos[|apos| - 1] != ent[|apos| - 1];
      } else {
        assert s[..|ent|] == apos;
      }
    }
  }
}
