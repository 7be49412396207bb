/** Shell quoting of lifecycle commands and recipes, against a lexer for the quoting rules of sections 2.2.2 and
  * 2.2.3 of the POSIX Shell Command Language (IEEE Std 1003.1).
  *
  * The lexer reads words made of plain characters, single quotes and double quotes. It gives no result for anything
  * a shell would expand or treat as an operator. */
module Shell {
  import opened Domain

  // ---------------------------------------------------------------- the lexer

  datatype Mode = Plain | Single | Double

  /** Characters that stand for themselves outside quotes. */
  predicate Safe(c: char) {
    'a' <= c <= 'z' || 'A' <= c <= 'Z' || '0' <= c <= '9' || c in "_@%+=:,./-"
  }

  function Extend(word: Option<string>, c: char): Option<string> { Some((if word.Some? then word.value else "") + [c]) }

  /** The words of `s`, read from the given mode with the given word begun. */
  function LexFrom(s: string, mode: Mode, word: Option<string>): Option<seq<string>> {
    if s == "" then
      if mode != Plain then None else if word.Some? then Some([word.value]) else Some([])
    else
      var c, rest := s[0], s[1..];
      match mode
      case Single => if c == '\'' then LexFrom(rest, Plain, word) else LexFrom(rest, Single, Extend(word, c))
      case Double =>
        if c == '"' then LexFrom(rest, Plain, word)
        else if c in "$`\\" then None
        else LexFrom(rest, Double, Extend(word, c))
      case Plain =>
        if c == ' ' then
          var words := LexFrom(rest, Plain, None);
          if words.Some? && word.Some? then Some([word.value] + words.value) else words
        else if c == '\'' then LexFrom(rest, Single, if word.Some? then word else Some(""))
        else if c == '"' then LexFrom(rest, Double, if word.Some? then word else Some(""))
        else if Safe(c) then LexFrom(rest, Plain, Extend(word, c))
        else None
  }

  function Lex(s: string): Option<seq<string>> { LexFrom(s, Plain, None) }

  // ---------------------------------------------------------------- quoting

  function ReplaceQuotes(v: string): string {
    if v == "" then "" else (if v[0] == '\'' then "'\"'\"'" else [v[0]]) + ReplaceQuotes(v[1..])
  }

  function Quote(v: string): string { "'" + ReplaceQuotes(v) + "'" }

  predicate AllSafe(v: string) { forall i :: 0 <= i < |v| ==> Safe(v[i]) }

  function QuoteArgument(v: string): string { if v != "" && AllSafe(v) then v else Quote(v) }

  lemma {:induction false} LexReplaced(v: string, rest: string, word: string)
    ensures LexFrom(ReplaceQuotes(v) + "'" + rest, Single, Some(word)) == LexFrom(rest, Plain, Some(word + v))
    decreases |v|
  {
    if v == "" {
      assert ReplaceQuotes(v) + "'" + rest == "'" + rest && word + v == word;
    } else {
      var tail := ReplaceQuotes(v[1..]) + "'" + rest;
      var next := word + [v[0]];
      LexReplaced(v[1..], rest, next);
      assert next + v[1..] == word + v;
      if v[0] == '\'' {
        assert ReplaceQuotes(v) + "'" + rest == "'\"'\"'" + tail;
        LexEscape(tail, word);
      } else {
        assert ReplaceQuotes(v) + "'" + rest == [v[0]] + tail;
      }
    }
  }

  /** The replacement closes the quotes, adds a quoted quote, and opens them again. */
  lemma LexEscape(tail: string, word: string)
    ensures LexFrom("'\"'\"'" + tail, Single, Some(word)) == LexFrom(tail, Single, Some(word + "'"))
  {
    var s := "'\"'\"'" + tail;
    assert s[1..] == "\"'\"'" + tail;
    assert s[1..][1..] == "'\"'" + tail;
    assert s[1..][1..][1..] == "\"'" + tail;
    assert s[1..][1..][1..][1..] == "'" + tail;
    assert s[1..][1..][1..][1..][1..] == tail;
    calc {
      LexFrom(s, Single, Some(word));
      LexFrom(s[1..], Plain, Some(word));
      LexFrom(s[1..][1..], Double, Some(word));
      LexFrom(s[1..][1..][1..], Double, Some(word + "'"));
      LexFrom(s[1..][1..][1..][1..], Plain, Some(word + "'"));
      LexFrom(s[1..][1..][1..][1..][1..], Single, Some(word + "'"));
    }
  }

  lemma {:induction false} LexSafe(v: string, rest: string, word: string)
    requires AllSafe(v)
    ensures LexFrom(v + rest, Plain, Some(word)) == LexFrom(rest, Plain, Some(word + v))
    decreases |v|
  {
    if v == "" {
      assert v + rest == rest && word + v == word;
    } else {
      assert (v + rest)[1..] == v[1..] + rest && word + [v[0]] + v[1..] == word + v;
      LexSafe(v[1..], rest, word + [v[0]]);
    }
  }

  /** What a value is written as, by either quoting function. */
  predicate Renders(text: string, v: string) { text == Quote(v) || text == QuoteArgument(v) }

  lemma LexQuoted(v: string, rest: string)
    ensures LexFrom(Quote(v) + rest, Plain, None) == LexFrom(rest, Plain, Some(v))
  {
    LexReplaced(v, rest, "");
    assert (Quote(v) + rest)[1..] == ReplaceQuotes(v) + "'" + rest && "" + v == v;
  }

  lemma LexPlain(v: string, rest: string)
    requires v != "" && AllSafe(v)
    ensures LexFrom(v + rest, Plain, None) == LexFrom(rest, Plain, Some(v))
  {
    var first := [v[0]];
    assert Extend(None, v[0]) == Some(first) by { assert "" + first == first; }
    assert v + rest == first + (v[1..] + rest) && (v + rest)[1..] == v[1..] + rest;
    assert Safe(v[0]) && v[0] != ' ' && v[0] != '\'' && v[0] != '"';
    assert LexFrom(v + rest, Plain, None) == LexFrom(v[1..] + rest, Plain, Some(first));
    LexSafe(v[1..], rest, first);
    assert first + v[1..] == v;
  }

  lemma LexRendered(text: string, v: string, rest: string)
    requires Renders(text, v)
    ensures LexFrom(text + rest, Plain, None) == LexFrom(rest, Plain, Some(v))
  {
    if text == Quote(v) { LexQuoted(v, rest); } else { LexPlain(v, rest); }
  }

  function JoinWords(texts: seq<string>): string {
    if texts == [] then "" else if |texts| == 1 then texts[0] else texts[0] + " " + JoinWords(texts[1..])
  }

  lemma LexSpace(rest: string, word: string, words: seq<string>)
    requires Lex(rest) == Some(words)
    ensures LexFrom(" " + rest, Plain, Some(word)) == Some([word] + words)
  {
    assert (" " + rest)[1..] == rest;
  }

  lemma LexOne(text: string, v: string)
    requires Renders(text, v)
    ensures Lex(text) == Some([v])
  {
    LexRendered(text, v, "");
    assert text + "" == text;
  }

  lemma LexMore(text: string, v: string, rest: string, words: seq<string>)
    requires Renders(text, v) && Lex(rest) == Some(words)
    ensures Lex(text + " " + rest) == Some([v] + words)
  {
    LexRendered(text, v, " " + rest);
    LexSpace(rest, v, words);
    assert text + " " + rest == text + (" " + rest);
  }

  /** Rendered arguments joined by spaces are read back as exactly the original list. */
  lemma {:induction false} LexJoined(texts: seq<string>, args: seq<string>)
    requires |texts| == |args| && forall i :: 0 <= i < |args| ==> Renders(texts[i], args[i])
    ensures Lex(JoinWords(texts)) == Some(args)
    decreases |args|
  {
    if |args| == 1 {
      LexOne(texts[0], args[0]);
      assert args == [args[0]];
    } else if |args| > 1 {
      LexJoined(texts[1..], args[1..]);
      LexMore(texts[0], args[0], JoinWords(texts[1..]), args[1..]);
      assert [args[0]] + args[1..] == args;
    }
  }

  // ---------------------------------------------------------------- lifecycle commands

  /** A decoded lifecycle command. */
  datatype Value = Text(text: string) | List(items: seq<Value>) | Other

  predicate Argv(v: Value) { v.List? && forall i :: 0 <= i < |v.items| ==> v.items[i].Text? }

  function Words(v: Value): seq<string>
    requires v.Text? || Argv(v)
  {
    if v.Text? then ["/bin/sh", "-c", v.text] else seq(|v.items|, i requires 0 <= i < |v.items| => v.items[i].text)
  }

  lemma ShellCommand(text: string)
    ensures Lex("/bin/sh -c " + Quote(text)) == Some(["/bin/sh", "-c", text])
  {
    var quoted := Quote(text);
    var texts := ["/bin/sh", "-c", quoted];
    assert QuoteArgument("/bin/sh") == "/bin/sh" && QuoteArgument("-c") == "-c";
    LexJoined(texts, ["/bin/sh", "-c", text]);
    assert texts[1..] == ["-c", quoted] && texts[1..][1..] == [quoted];
    assert JoinWords([quoted]) == quoted;
    assert JoinWords(texts[1..]) == "-c" + " " + quoted;
    assert JoinWords(texts) == "/bin/sh" + " " + ("-c" + " " + quoted);
    assert "/bin/sh" + " " + ("-c" + " " + quoted) == "/bin/sh -c " + quoted;
  }

  method QuoteAll(items: seq<Value>) returns (command: Option<string>)
    ensures command.Some? <==> Argv(List(items))
    ensures command.Some? ==> Lex(command.value) == Some(Words(List(items)))
  {
    var arguments := new string[|items|];
    for i := 0 to |items|
      invariant forall k :: 0 <= k < i ==> items[k].Text? && arguments[k] == Quote(items[k].text)
    {
      if !items[i].Text? { return None; }
      arguments[i] := Quote(items[i].text);
    }
    LexJoined(arguments[..], Words(List(items)));
    return Some(JoinWords(arguments[..]));
  }

  /** A string runs under a shell of its own, a list of strings runs as it is, and anything else is an error: the
    * command written out is read back by a shell as exactly those words. */
  method NamedCommand(v: Value) returns (command: Option<string>)
    ensures command.Some? <==> v.Text? || Argv(v)
    ensures command.Some? ==> Lex(command.value) == Some(Words(v))
  {
    match v {
      case Text(text) =>
        ShellCommand(text);
        return Some("/bin/sh -c " + Quote(text));
      case List(items) =>
        command := QuoteAll(items);
      case Other =>
        return None;
    }
  }
}
