/**
 * The shell quoter of snapshot_writer.c: what it writes, exactly when it fits, and that a POSIX shell reads
 * the original text back as one argument of the command (sections 2.2, 2.3 and 2.6 of the Shell Command Language).
 */
module ShellQuote {
  import opened Bytes

  /** What the caller wants: the text in single quotes, each single quote of its own closed, escaped and reopened. */
  function Escaped(text: string): string {
    if text == [] then []
    else (if text[0] == '\'' then "'\\''" else [text[0]]) + Escaped(text[1..])
  }

  function Quote(text: string): string {
    "'" + Escaped(text) + "'"
  }

  function Quotes(text: string): nat {
    if text == [] then 0 else (if text[0] == '\'' then 1 else 0) + Quotes(text[1..])
  }

  // ----- the shell's side -----

  /** Characters that mean something to the shell outside quotes, blanks aside. */
  predicate Special(c: char) {
    c in "|&;<>()$`\"*?[#~=%\n"
  }

  predicate Blank(c: char) {
    c == ' ' || c == '\t'
  }

  function Cons(word: string, words: Option<seq<string>>): Option<seq<string>> {
    if words.Some? then Some([word] + words.value) else None
  }

  /** The word under way, if one has begun, with more text. */
  function Grow(word: Option<string>, text: string): Option<string> {
    Some((if word.Some? then word.value else "") + text)
  }

  /**
   * Token recognition, quote removal and field splitting of a simple command: single quotes keep everything up
   * to the next one, a backslash outside them keeps the next character or continues the line before a newline,
   * blanks outside them end a word. None for an open quote or anything special.
   */
  function Lex(s: string, quoted: bool, word: Option<string>): Option<seq<string>>
    decreases |s|
  {
    if s == [] then (if quoted then None else if word.Some? then Some([word.value]) else Some([]))
    else if s[0] == '\'' then Lex(s[1..], !quoted, Grow(word, ""))
    else if quoted then Lex(s[1..], true, Grow(word, [s[0]]))
    else if s[0] == '\\' then
      if |s| < 2 then None
      else if s[1] == '\n' then Lex(s[2..], false, word)
      else Lex(s[2..], false, Grow(word, [s[1]]))
    else if Blank(s[0]) then
      if word.Some? then Cons(word.value, Lex(s[1..], false, None)) else Lex(s[1..], false, None)
    else if Special(s[0]) then None
    else Lex(s[1..], false, Grow(word, [s[0]]))
  }

  function Words(command: string): Option<seq<string>> {
    Lex(command, false, None)
  }

  // ----- what the two have to do with each other -----

  lemma {:induction false} EscapedConcat(a: string, b: string)
    ensures Escaped(a + b) == Escaped(a) + Escaped(b)
  {
    if a == [] {
      assert a + b == b;
    } else {
      assert (a + b)[1..] == a[1..] + b;
      EscapedConcat(a[1..], b);
    }
  }

  lemma {:induction false} EscapedOne(c: char)
    ensures Escaped([c]) == if c == '\'' then "'\\''" else [c]
  {
    assert Escaped([c][1..]) == [];
  }

  /** The exact length, from which the capacity bound follows. */
  lemma {:induction false} EscapedLength(text: string)
    ensures |Escaped(text)| == |text| + 3 * Quotes(text)
  {
    if text != [] {
      EscapedLength(text[1..]);
    }
  }

  lemma {:induction false} GrowTwice(word: Option<string>, a: string, b: string)
    ensures Grow(Grow(word, a), b) == Grow(word, a + b)
  {
    var w := if word.Some? then word.value else "";
    assert w + a + b == w + (a + b);
  }

  lemma {:induction false} LexStep(c: char, s: string, word: Option<string>)
    ensures Lex((if c == '\'' then "'\\''" else [c]) + s, true, word) == Lex(s, true, Grow(word, [c]))
  {
    if c == '\'' {
      var t := "'\\''" + s;
      assert t[1..] == "\\''" + s;
      assert ("\\''" + s)[2..] == "'" + s;
      assert ("'" + s)[1..] == s;
      GrowTwice(word, "", "'");
      GrowTwice(word, "'", "");
      assert "" + "'" == "'" == "'" + "";
      assert Lex(t, true, word) == Lex("\\''" + s, false, Grow(word, "")) == Lex("'" + s, false, Grow(Grow(word, ""), "'"));
    } else {
      assert ([c] + s)[1..] == s;
    }
  }

  lemma {:induction false} EscapedReads(text: string, rest: string, word: Option<string>)
    ensures word.Some? ==> Lex(Escaped(text) + rest, true, word) == Lex(rest, true, Grow(word, text))
    decreases |text|
  {
    if word.Some? {
      if text == [] {
        assert Escaped(text) + rest == rest;
        assert word.value + text == word.value;
      } else {
        var head := if text[0] == '\'' then "'\\''" else [text[0]];
        assert Escaped(text) + rest == head + (Escaped(text[1..]) + rest);
        LexStep(text[0], Escaped(text[1..]) + rest, word);
        EscapedReads(text[1..], rest, Grow(word, [text[0]]));
        GrowTwice(word, [text[0]], text[1..]);
        assert [text[0]] + text[1..] == text;
      }
    }
  }

  /** Wherever it stands on the command line, quoted text adds exactly the text to the word it stands in. */
  lemma {:induction false} QuoteThen(text: string, rest: string, word: Option<string>)
    ensures Lex(Quote(text) + rest, false, word) == Lex(rest, false, Grow(word, text))
  {
    var tail := "'" + rest;
    assert Quote(text) + rest == "'" + (Escaped(text) + tail);
    assert ("'" + (Escaped(text) + tail))[1..] == Escaped(text) + tail;
    EscapedReads(text, tail, Grow(word, ""));
    assert tail[1..] == rest;
    GrowTwice(word, "", text);
    GrowTwice(word, text, "");
    assert "" + text == text == text + "";
  }

  /** The round trip: on its own, quoted text is one word, the text. */
  lemma {:induction false} QuoteReadsBack(text: string)
    ensures Words(Quote(text)) == Some([text])
  {
    hide Quote;
    QuoteThen(text, [], None);
    assert Quote(text) + [] == Quote(text);
    assert "" + text == text;
  }

  // ----- the command line -----

  predicate Plain(text: string) {
    forall i :: 0 <= i < |text| ==> text[i] != '\'' && text[i] != '\\' && !Blank(text[i]) && !Special(text[i])
  }

  lemma {:induction false} PlainThen(text: string, rest: string, word: Option<string>)
    requires Plain(text) && word.Some?
    ensures Lex(text + rest, false, word) == Lex(rest, false, Grow(word, text))
    decreases |text|
  {
    if text == [] {
      assert text + rest == rest;
      assert word.value + text == word.value;
    } else {
      assert (text + rest)[1..] == text[1..] + rest;
      PlainThen(text[1..], rest, Grow(word, [text[0]]));
      GrowTwice(word, [text[0]], text[1..]);
      assert [text[0]] + text[1..] == text;
    }
  }

  /** A plain word and the blank after it. */
  lemma {:induction false} PlainWord(text: string, rest: string)
    requires Plain(text) && text != []
    ensures Lex(text + " " + rest, false, None) == Cons(text, Lex(rest, false, None))
  {
    var more := text[1..] + (" " + rest);
    assert text + " " + rest == [text[0]] + more;
    assert ([text[0]] + more)[1..] == more;
    PlainThen(text[1..], " " + rest, Grow(None, [text[0]]));
    GrowTwice(None, [text[0]], text[1..]);
    assert [text[0]] + text[1..] == text && "" + text == text;
    assert (" " + rest)[1..] == rest;
  }

  /** A quoted word and the blank after it. */
  lemma {:induction false} QuotedWord(text: string, rest: string)
    ensures Lex(Quote(text) + " " + rest, false, None) == Cons(text, Lex(rest, false, None))
  {
    assert Quote(text) + " " + rest == Quote(text) + (" " + rest);
    QuoteThen(text, " " + rest, None);
    assert "" + text == text;
    assert (" " + rest)[1..] == rest;
  }

  /** Words joined by blanks, in front of the rest of a line. */
  function Line(words: seq<string>, rest: string): string {
    if words == [] then rest else words[0] + " " + Line(words[1..], rest)
  }

  lemma {:induction false} LineReads(words: seq<string>, rest: string)
    requires forall i :: 0 <= i < |words| ==> Plain(words[i]) && words[i] != []
    ensures var r := Lex(rest, false, None);
            Lex(Line(words, rest), false, None) == if r.Some? then Some(words + r.value) else None
  {
    if words == [] {
      assert forall r: seq<string> :: [] + r == r;
    } else {
      hide Plain, Lex;
      PlainWord(words[0], Line(words[1..], rest));
      LineReads(words[1..], rest);
      var r := Lex(rest, false, None);
      if r.Some? {
        assert [words[0]] + (words[1..] + r.value) == words + r.value;
      }
    }
  }

  const OPTIONS: seq<string> := ["-hide_banner", "-loglevel", "error", "-y", "-f", "hevc", "-i"]

  /** The line `snapshot_convert_h265_to_image` hands to `system`; `program` is SNAPSHOT_FFMPEG_BIN. */
  function Command(program: string, input: string, image: string): string {
    Line([program] + OPTIONS, Quote(input) + " " + Line(["-frames:v", "1"], Quote(image)))
  }

  /** Lower-case letters, digits, `-`, `:` and `_`. */
  predicate Tame(c: char) {
    'a' <= c <= 'z' || '0' <= c <= ':' || c == '-' || c == '_'
  }

  lemma {:induction false} TamePlain(text: string)
    requires forall i :: 0 <= i < |text| ==> Tame(text[i])
    ensures Plain(text)
  {
  }

  lemma {:induction false} OptionsPlain(program: string)
    requires Plain(program) && program != []
    ensures forall i :: 0 <= i < 8 ==> Plain(([program] + OPTIONS)[i]) && ([program] + OPTIONS)[i] != []
    ensures Plain("-frames:v") && Plain("1")
  {
    hide Plain;
    TamePlain("-frames:v");
    TamePlain("1");
    forall i | 0 <= i < 7
      ensures Plain(OPTIONS[i]) && OPTIONS[i] != []
    {
      TamePlain(OPTIONS[i]);
    }
    assert forall i :: 1 <= i < 8 ==> ([program] + OPTIONS)[i] == OPTIONS[i - 1];
  }

  /** The program gets both paths as its arguments, byte for byte, whatever they contain. */
  lemma {:induction false} CommandReads(program: string, input: string, image: string)
    requires Plain(program) && program != []
    ensures Words(Command(program, input, image)) ==
            Some([program, "-hide_banner", "-loglevel", "error", "-y", "-f", "hevc", "-i", input, "-frames:v", "1", image])
  {
    hide Plain, Quote, Lex, Line;
    OptionsPlain(program);
    QuoteReadsBack(image);
    LineReads(["-frames:v", "1"], Quote(image));
    var tail := Line(["-frames:v", "1"], Quote(image));
    QuotedWord(input, tail);
    LineReads([program] + OPTIONS, Quote(input) + " " + tail);
    assert [program] + OPTIONS + ([input] + (["-frames:v", "1"] + [image]))
        == [program, "-hide_banner", "-loglevel", "error", "-y", "-f", "hevc", "-i", input, "-frames:v", "1", image];
  }

  // ----- the code -----

  /** A C string: what comes before its terminator. */
  ghost predicate Holds(dst: array<char>, text: string)
    reads dst
  {
    |text| < dst.Length && dst[..|text|] == text && dst[|text|] == '\0'
  }

  /** `snapshot_append_text`. */
  method AppendText(dst: array<char>, offset: nat, src: string) returns (ok: bool, end: nat)
    requires offset <= dst.Length
    modifies dst
    ensures ok == (offset + |src| < dst.Length) && end == (if ok then offset + |src| else offset)
    ensures if ok then Holds(dst, old(dst[..offset]) + src) else dst[..] == old(dst[..])
  {
    if offset + |src| >= dst.Length {
      return false, offset;
    }
    ghost var before := dst[..offset];
    forall i | 0 <= i < |src| {
      dst[offset + i] := src[i];
    }
    assert dst[..offset] == before;
    assert dst[offset..offset + |src|] == src;
    assert dst[..offset + |src|] == before + src;
    end := offset + |src|;
    ghost var text := dst[..end];
    dst[end] := '\0';
    assert dst[..end] == text;
    ok := true;
  }

  /** `snapshot_shell_quote`: it succeeds exactly when the quoted text and its terminator fit. */
  method SnapshotShellQuote(dst: array<char>, src: string) returns (ok: bool)
    modifies dst
    ensures ok == (2 + |src| + 3 * Quotes(src) < dst.Length)
    ensures ok ==> Holds(dst, Quote(src))
  {
    EscapedLength(src);
    var offset;
    ok, offset := AppendText(dst, 0, "'");
    if !ok {
      return;
    }
    var i := 0;
    while i < |src|
      invariant 0 <= i <= |src|
      invariant offset == 1 + |Escaped(src[..i])|
      invariant Holds(dst, "'" + Escaped(src[..i]))
    {
      NextEscaped(src, i);
      if src[i] == '\'' {
        ok, offset := AppendText(dst, offset, "'\\''");
        if !ok {
          return;
        }
      } else {
        if offset + 1 >= dst.Length {
          return false;
        }
        ghost var before := dst[..offset];
        dst[offset] := src[i];
        offset := offset + 1;
        dst[offset] := '\0';
        assert dst[..offset] == before + [src[i]];
      }
      i := i + 1;
    }
    assert src[..i] == src;
    ok, offset := AppendText(dst, offset, "'");
  }

  lemma {:induction false} NextEscaped(src: string, i: nat)
    requires i < |src|
    ensures Escaped(src[..i + 1]) == Escaped(src[..i]) + if src[i] == '\'' then "'\\''" else [src[i]]
    ensures |Escaped(src[..i + 1])| <= |Escaped(src)|
  {
    assert src[..i + 1] == src[..i] + [src[i]];
    EscapedConcat(src[..i], [src[i]]);
    EscapedOne(src[i]);
    assert src == src[..i + 1] + src[i + 1..];
    EscapedConcat(src[..i + 1], src[i + 1..]);
  }
}
