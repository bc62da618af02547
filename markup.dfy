/**
 * The caption sanitiser `escape_markdown` (src/main.py:146-149): a backslash is put
 * before every character of an 18-character reserved set. The set is exactly the
 * list of characters Telegram's MarkdownV2 parse mode requires to be escaped outside
 * entities. The backslash is not in it, although MarkdownV2 reads a backslash as the
 * escape prefix of the next character (any character with code 1 to 126).
 */
module Markup {
  import opened Wrappers

  const RESERVED_CHARS: string := "_*[]()~`>#+-=|{}.!"

  predicate IsReserved(c: char)
  {
    c in RESERVED_CHARS
  }

  /** The replacement the regular expression makes for one character. */
  function EscapeChar(c: char): string
  {
    if IsReserved(c) then ['\\', c] else [c]
  }

  function CountReserved(s: string): nat
    decreases |s|
  {
    if s == [] then 0
    else (if IsReserved(s[0]) then 1 else 0) + CountReserved(s[1..])
  }

  /**
   * escape_markdown as written: one backslash is inserted before every reserved
   * character; every reserved character of the result carries it.
   */
  function EscapeMarkdown(s: string): (r: string)
    ensures |r| == |s| + CountReserved(s)
    ensures forall i :: 0 <= i < |r| && IsReserved(r[i]) ==> 0 < i && r[i - 1] == '\\'
    decreases |s|
  {
    if s == [] then [] else EscapeChar(s[0]) + EscapeMarkdown(s[1..])
  }

  /** Deletes each backslash that directly precedes a reserved character. */
  function Unescape(r: string): string
    decreases |r|
  {
    if r == [] then []
    else (if r[0] == '\\' && |r| >= 2 && IsReserved(r[1]) then [] else [r[0]]) + Unescape(r[1..])
  }

  /** Removing the inserted backslashes gives the original text back. */
  lemma {:induction false} UnescapeEscape(s: string)
    ensures Unescape(EscapeMarkdown(s)) == s
    decreases |s|
  {
    if s != [] {
      var c, tail := s[0], EscapeMarkdown(s[1..]);
      UnescapeEscape(s[1..]);
      if IsReserved(c) {
        var r := ['\\', c] + tail;
        assert EscapeMarkdown(s) == r;
        assert r[1..] == [c] + tail;
        assert ([c] + tail)[1..] == tail;
        assert Unescape([c] + tail) == [c] + Unescape(tail);
      } else {
        var r := [c] + tail;
        assert EscapeMarkdown(s) == r;
        assert r[1..] == tail;
        assert tail != [] ==> !IsReserved(tail[0]);
      }
    }
  }

  /** Escaping distributes over concatenation: each character is replaced on its own. */
  lemma {:induction false} EscapeConcat(a: string, b: string)
    ensures EscapeMarkdown(a + b) == EscapeMarkdown(a) + EscapeMarkdown(b)
    decreases |a|
  {
    if a == [] {
      assert a + b == b;
    } else {
      assert (a + b)[0] == a[0] && (a + b)[1..] == a[1..] + b;
      EscapeConcat(a[1..], b);
      calc {
        EscapeMarkdown(a + b);
        EscapeChar(a[0]) + EscapeMarkdown(a[1..] + b);
        EscapeChar(a[0]) + (EscapeMarkdown(a[1..]) + EscapeMarkdown(b));
        (EscapeChar(a[0]) + EscapeMarkdown(a[1..])) + EscapeMarkdown(b);
      }
    }
  }

  /** Text without reserved characters (backslashes included) is left unchanged. */
  lemma {:induction false} EscapePlain(s: string)
    requires forall i :: 0 <= i < |s| ==> !IsReserved(s[i])
    ensures EscapeMarkdown(s) == s
    decreases |s|
  {
    if s != [] {
      EscapePlain(s[1..]);
    }
  }

  lemma {:induction false} CountReservedPositive(s: string)
    ensures CountReserved(s) > 0 <==> exists i :: 0 <= i < |s| && IsReserved(s[i])
    decreases |s|
  {
    if s != [] {
      CountReservedPositive(s[1..]);
      if exists i :: 0 <= i < |s[1..]| && IsReserved(s[1..][i]) {
        var i :| 0 <= i < |s[1..]| && IsReserved(s[1..][i]);
        assert IsReserved(s[i + 1]);
      }
      if exists i :: 0 <= i < |s| && IsReserved(s[i]) {
        var i :| 0 <= i < |s| && IsReserved(s[i]);
        if i > 0 {
          assert IsReserved(s[1..][i - 1]);
        }
      }
    }
  }

  /** The inserted backslashes are not reserved, so the reserved count is kept. */
  lemma {:induction false} EscapeKeepsReservedCount(s: string)
    ensures CountReserved(EscapeMarkdown(s)) == CountReserved(s)
    decreases |s|
  {
    if s != [] {
      EscapeKeepsReservedCount(s[1..]);
      var e := EscapeChar(s[0]);
      EscapeConcat([s[0]], s[1..]);
      assert [s[0]] + s[1..] == s;
      CountReservedConcat(e, EscapeMarkdown(s[1..]));
      assert CountReserved(e) == (if IsReserved(s[0]) then 1 else 0) by {
        if IsReserved(s[0]) {
          assert e[1..] == [s[0]];
          assert CountReserved([s[0]]) == 1;
        }
      }
    }
  }

  lemma {:induction false} CountReservedConcat(a: string, b: string)
    ensures CountReserved(a + b) == CountReserved(a) + CountReserved(b)
    decreases |a|
  {
    if a == [] {
      assert a + b == b;
    } else {
      assert (a + b)[0] == a[0] && (a + b)[1..] == a[1..] + b;
      CountReservedConcat(a[1..], b);
    }
  }

  /**
   * Escaping is not idempotent: a second application double-escapes, and it leaves
   * the text unchanged exactly when the text holds no reserved character.
   */
  lemma EscapeTwiceUnchangedIffPlain(s: string)
    ensures EscapeMarkdown(EscapeMarkdown(s)) == EscapeMarkdown(s)
        <==> forall i :: 0 <= i < |s| ==> !IsReserved(s[i])
  {
    CountReservedPositive(s);
    EscapeKeepsReservedCount(s);
    if forall i :: 0 <= i < |s| ==> !IsReserved(s[i]) {
      EscapePlain(s);
    } else {
      var e := EscapeMarkdown(s);
      assert |EscapeMarkdown(e)| == |e| + CountReserved(s);
    }
  }

  // ---------------------------------------------------------------------------
  // How Telegram reads a MarkdownV2 caption that is meant as plain text.

  function Prepend(c: char, o: Option<string>): Option<string>
  {
    match o
    case None => None
    case Some(t) => Some([c] + t)
  }

  /**
   * The plain text a MarkdownV2 caption renders as, or None when it contains an
   * unescaped reserved character (which Telegram reads as markup or rejects) or a
   * backslash that does not escape a character with code 1 to 126.
   */
  function ReadPlain(r: string): Option<string>
    decreases |r|
  {
    if r == [] then Some([])
    else if r[0] == '\\' then
      if |r| >= 2 && 1 <= r[1] as int <= 126 then Prepend(r[1], ReadPlain(r[2..])) else None
    else if IsReserved(r[0]) then None
    else Prepend(r[0], ReadPlain(r[1..]))
  }

  lemma ReservedAreAscii(c: char)
    requires IsReserved(c)
    ensures 1 <= c as int <= 126
  {
  }

  /** For text without backslashes, Telegram renders the escaped caption as the text itself. */
  lemma {:induction false} ReadPlainEscape(s: string)
    requires forall i :: 0 <= i < |s| ==> s[i] != '\\'
    ensures ReadPlain(EscapeMarkdown(s)) == Some(s)
    decreases |s|
  {
    if s != [] {
      var c, tail := s[0], EscapeMarkdown(s[1..]);
      ReadPlainEscape(s[1..]);
      assert [c] + s[1..] == s;
      if IsReserved(c) {
        ReservedAreAscii(c);
        var r := ['\\', c] + tail;
        assert EscapeMarkdown(s) == r;
        assert r[0] == '\\' && r[1] == c && r[2..] == tail;
        assert ReadPlain(r) == Prepend(c, ReadPlain(tail));
      } else {
        var r := [c] + tail;
        assert EscapeMarkdown(s) == r;
        assert r[0] == c && r[1..] == tail;
        assert ReadPlain(r) == Prepend(c, ReadPlain(tail));
      }
    }
  }

  /** A report holding a backslash before a full stop produces a caption Telegram refuses. */
  lemma BackslashBreaksCaption()
    ensures EscapeMarkdown("\\.") == "\\\\."
    ensures ReadPlain(EscapeMarkdown("\\.")) == None
  {
  }

  /** The escape MarkdownV2 asks for: the backslash is escaped as well. */
  function EscapeMarkdownV2(s: string): (r: string)
    ensures ReadPlain(r) == Some(s)
    decreases |s|
  {
    if s == [] then []
    else
      var head := if s[0] == '\\' || IsReserved(s[0]) then ['\\', s[0]] else [s[0]];
      var tail := EscapeMarkdownV2(s[1..]);
      assert IsReserved(s[0]) ==> 1 <= s[0] as int <= 126 by {
        if IsReserved(s[0]) { ReservedAreAscii(s[0]); }
      }
      var r := head + tail;
      assert r[|head|..] == tail;
      assert ReadPlain(r) == Prepend(s[0], ReadPlain(tail));
      assert [s[0]] + s[1..] == s;
      r
  }
}
