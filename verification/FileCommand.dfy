/**
 Writing a file inside a container: the check of the path, the shell command that carries path and
 content, and what a POSIX shell reads out of that command.
 */
module FileCommand {
  import opened Common
  import Base64
  import Paths

  // ----- The path -----

  predicate IsControl(c: char) {
    c < ' ' && c != '\t'
  }

  predicate HasDots(s: string) {
    exists i :: 0 <= i < |s| - 1 && s[i] == '.' && s[i + 1] == '.'
  }

  datatype PathError = ControlCharacter | NotAbsolute | Traversal

  function ValidatePath(path: string): Result<string, PathError> {
    if exists i :: 0 <= i < |path| && IsControl(path[i]) then Failure(ControlCharacter)
    else
      var cleaned := Paths.Clean(path);
      if !Paths.Rooted(cleaned) then Failure(NotAbsolute)
      else if HasDots(cleaned) then Failure(Traversal)
      else Success(cleaned)
  }

  lemma DotsAcross(a: string, b: string)
    ensures HasDots(a + "/" + b) <==> HasDots(a) || HasDots(b)
  {
    var s := a + "/" + b;
    if HasDots(a) {
      var i :| 0 <= i < |a| - 1 && a[i] == '.' && a[i + 1] == '.';
      assert s[i] == '.' && s[i + 1] == '.';
    }
    if HasDots(b) {
      var i :| 0 <= i < |b| - 1 && b[i] == '.' && b[i + 1] == '.';
      assert s[|a| + 1 + i] == '.' && s[|a| + 1 + i + 1] == '.';
    }
    if HasDots(s) {
      var i :| 0 <= i < |s| - 1 && s[i] == '.' && s[i + 1] == '.';
      assert s[|a|] == '/';
      if i < |a| {
        assert a[i] == '.' && a[i + 1] == '.';
      } else {
        var j := i - |a| - 1;
        assert b[j] == '.' && b[j + 1] == '.';
      }
    }
  }

  lemma {:induction false} DotsInJoin(pieces: seq<string>)
    ensures HasDots(Paths.Join(pieces)) <==> exists i :: 0 <= i < |pieces| && HasDots(pieces[i])
  {
    if |pieces| > 1 {
      DotsInJoin(pieces[1..]);
      DotsAcross(pieces[0], Paths.Join(pieces[1..]));
      assert forall i :: 0 < i < |pieces| ==> pieces[i] == pieces[1..][i - 1];
    }
  }

  predicate NoControls(s: string) {
    forall i :: 0 <= i < |s| ==> !IsControl(s[i])
  }

  lemma {:induction false} SplitKeepsNoControls(path: string)
    requires NoControls(path)
    ensures forall piece :: piece in Paths.Split(path) ==> NoControls(piece)
  {
    if path != "" {
      SplitKeepsNoControls(path[1..]);
      var rest := Paths.Split(path[1..]);
      assert rest[0] in rest;
      assert forall piece :: piece in rest[1..] ==> piece in rest;
    }
  }

  lemma {:induction false} ResolveInventsNothing(pieces: seq<string>, rooted: bool, out: seq<string>)
    ensures forall piece :: piece in Paths.Resolve(pieces, rooted, out) ==> piece in pieces || piece in out
    decreases |pieces|
  {
    if pieces != [] {
      ResolveInventsNothing(pieces[1..], rooted, Paths.Push(out, pieces[0], rooted));
    }
  }

  lemma {:induction false} JoinKeepsNoControls(pieces: seq<string>)
    requires forall piece :: piece in pieces ==> NoControls(piece)
    ensures NoControls(Paths.Join(pieces))
  {
    if |pieces| > 0 {
      assert pieces[0] in pieces;
      JoinKeepsNoControls(pieces[1..]);
    }
  }

  lemma CleanKeepsNoControls(path: string)
    requires NoControls(path)
    ensures NoControls(Paths.Clean(path))
  {
    SplitKeepsNoControls(path);
    ResolveInventsNothing(Paths.Split(path), Paths.Rooted(path), []);
    JoinKeepsNoControls(Paths.CleanPieces(path));
  }

  /** What is accepted is absolute, clean, without two dots in a row, and accepted as it stands. */
  lemma AcceptedPaths(path: string)
    requires ValidatePath(path).Success?
    ensures var accepted := ValidatePath(path).value;
      && Paths.Rooted(accepted) && Paths.Clean(accepted) == accepted && !HasDots(accepted)
      && ValidatePath(accepted) == Success(accepted)
  {
    Paths.CleanIsIdempotent(path);
    CleanKeepsNoControls(path);
  }

  /**
   Going up is resolved, not refused: of the absolute paths without control characters, exactly those
   are refused that keep a name with two dots in it.
   */
  lemma RefusedForDots(path: string)
    requires NoControls(path) && Paths.Rooted(path)
    ensures ValidatePath(path).Failure? <==>
      exists name :: name in Paths.CleanPieces(path) && name != ".." && HasDots(name)
  {
    var pieces := Paths.CleanPieces(path);
    Paths.CleanIsIdempotent(path);
    Paths.CleanPiecesAreNormal(path);
    DotsInJoin(pieces);
    DotsAcross("", Paths.Join(pieces));
    assert "" + "/" + Paths.Join(pieces) == Paths.Clean(path);
    assert forall name :: name in pieces ==> name != "..";
  }

  /** What is accepted, in the characters of the path and of its clean form. */
  lemma AcceptedExactly(path: string)
    ensures ValidatePath(path).Success? <==>
      && (forall i :: 0 <= i < |path| ==> path[i] >= ' ' || path[i] == '\t')
      && path != "" && path[0] == '/'
      && (forall a, b :: Paths.Clean(path) != a + ".." + b)
  {
    hide Paths.Clean;
    Paths.CleanIsIdempotent(path);
    DotsInText(Paths.Clean(path));
  }

  lemma DotsInText(text: string)
    ensures HasDots(text) <==> exists a, b :: text == a + ".." + b
  {
    if HasDots(text) {
      var i :| 0 <= i < |text| - 1 && text[i] == '.' && text[i + 1] == '.';
      assert text == text[..i] + ".." + text[i + 2..];
    }
    forall a, b | text == a + ".." + b ensures HasDots(text) {
      assert text[|a|] == '.' && text[|a| + 1] == '.';
    }
  }

  // ----- The command -----

  /** A single quote becomes: close the quotes, an escaped quote, open them again. */
  function Escape(s: string): string {
    if s == "" then "" else (if s[0] == '\'' then "'\\''" else [s[0]]) + Escape(s[1..])
  }

  function WriteScript(encoded: string, path: string): string {
    "printf '%s' '" + encoded + "' | base64 -d > '" + Escape(path) + "'"
  }

  // ----- The shell's reading (IEEE Std 1003.1, Shell Command Language, sections 2.2.1, 2.2.2 and 2.3) -----

  datatype Token = Word(text: string) | Pipe | Redirect

  /** Before a word, inside one, or inside single quotes within one. */
  datatype Mode = Between | In(text: string) | Quoted(text: string)

  predicate IsBlank(c: char) {
    c == ' ' || c == '\t'
  }

  /** Characters with a meaning of their own that the commands here do not use unquoted. */
  predicate IsOtherSpecial(c: char) {
    c in "$`\"&;<()\n*?[#~!{}="
  }

  function EndWord(mode: Mode): seq<Token> {
    match mode
    case In(text) => [Word(text)]
    case _ => []
  }

  function TextOf(mode: Mode): string {
    if mode.Between? then "" else mode.text
  }

  /**
   None for input that is cut inside quotes or after a backslash, or uses what is not modelled: other
   special characters, operators of two characters, and words right before a redirection.
   */
  function Lex(mode: Mode, input: string, tokens: seq<Token>): Option<seq<Token>>
    decreases |input|
  {
    if input == "" then if mode.Quoted? then None else Some(tokens + EndWord(mode))
    else
      var c, rest := input[0], input[1..];
      if mode.Quoted? then
        if c == '\'' then Lex(In(mode.text), rest, tokens) else Lex(Quoted(mode.text + [c]), rest, tokens)
      else if c == '\'' then Lex(Quoted(TextOf(mode)), rest, tokens)
      else if c == '\\' then
        if rest == "" || rest[0] == '\n' then None
        else Lex(In(TextOf(mode) + [rest[0]]), rest[1..], tokens)
      else if IsBlank(c) then Lex(Between, rest, tokens + EndWord(mode))
      else if c == '|' || c == '>' then
        if (rest != "" && rest[0] in "|>&") || (c == '>' && mode.In?) then None
        else Lex(Between, rest, tokens + EndWord(mode) + [if c == '|' then Pipe else Redirect])
      else if IsOtherSpecial(c) then None
      else Lex(In(TextOf(mode) + [c]), rest, tokens)
  }

  function Tokenize(input: string): Option<seq<Token>> {
    Lex(Between, input, [])
  }

  predicate IsPlain(c: char) {
    c !in "'\\|>" && !IsBlank(c) && !IsOtherSpecial(c)
  }

  lemma {:induction false} LexPlain(text: string, word: string, rest: string, tokens: seq<Token>)
    requires forall i :: 0 <= i < |word| ==> IsPlain(word[i])
    ensures Lex(In(text), word + rest, tokens) == Lex(In(text + word), rest, tokens)
    decreases |word|
  {
    if word == "" {
      assert word + rest == rest && text + word == text;
    } else {
      assert (word + rest)[1..] == word[1..] + rest;
      LexPlain(text + [word[0]], word[1..], rest, tokens);
      assert text + [word[0]] + word[1..] == text + word;
    }
  }

  lemma BlankEndsWord(text: string, rest: string, tokens: seq<Token>)
    ensures Lex(In(text), " " + rest, tokens) == Lex(Between, rest, tokens + [Word(text)])
    ensures Lex(Between, " " + rest, tokens) == Lex(Between, rest, tokens)
  {
    assert (" " + rest)[1..] == rest;
    assert tokens + [] == tokens;
  }

  lemma OneOperator(rest: string, tokens: seq<Token>)
    requires rest != "" && rest[0] == ' '
    ensures Lex(Between, "|" + rest, tokens) == Lex(Between, rest, tokens + [Pipe])
    ensures Lex(Between, ">" + rest, tokens) == Lex(Between, rest, tokens + [Redirect])
  {
    assert ("|" + rest)[1..] == rest && (">" + rest)[1..] == rest;
    assert tokens + [] == tokens;
  }

  lemma OpenQuote(rest: string, tokens: seq<Token>)
    ensures Lex(Between, "'" + rest, tokens) == Lex(Quoted(""), rest, tokens)
  {
    assert ("'" + rest)[1..] == rest;
  }

  /** A plain word before a blank. */
  lemma LexWord(word: string, rest: string, tokens: seq<Token>)
    requires word != "" && forall i :: 0 <= i < |word| ==> IsPlain(word[i])
    ensures Lex(Between, word + " " + rest, tokens) == Lex(Between, rest, tokens + [Word(word)])
  {
    var input := word + " " + rest;
    assert input[1..] == word[1..] + (" " + rest) && "" + [word[0]] == [word[0]];
    assert Lex(Between, input, tokens) == Lex(In([word[0]]), input[1..], tokens);
    LexPlain([word[0]], word[1..], " " + rest, tokens);
    assert [word[0]] + word[1..] == word;
    BlankEndsWord(word, rest, tokens);
  }

  lemma {:induction false} LexQuoted(text: string, quoted: string, rest: string, tokens: seq<Token>)
    requires '\'' !in quoted
    ensures Lex(Quoted(text), quoted + "'" + rest, tokens) == Lex(In(text + quoted), rest, tokens)
    decreases |quoted|
  {
    var input := quoted + "'" + rest;
    if quoted == "" {
      assert input[1..] == rest && text + quoted == text;
    } else {
      assert input[1..] == quoted[1..] + "'" + rest;
      LexQuoted(text + [quoted[0]], quoted[1..], rest, tokens);
      assert text + [quoted[0]] + quoted[1..] == text + quoted;
    }
  }

  /** The escaping is undone by the shell, whatever the text. */
  lemma {:induction false} LexEscaped(text: string, s: string, rest: string, tokens: seq<Token>)
    ensures Lex(Quoted(text), Escape(s) + "'" + rest, tokens) == Lex(In(text + s), rest, tokens)
    decreases |s|
  {
    var input := Escape(s) + "'" + rest;
    if s == "" {
      assert input[1..] == rest && text + s == text;
    } else {
      var next := Escape(s[1..]) + "'" + rest;
      if s[0] == '\'' {
        assert input == "'\\''" + next;
        QuoteSequence(text, next, tokens);
      } else {
        assert input[1..] == next;
      }
      LexEscaped(text + [s[0]], s[1..], rest, tokens);
      assert text + [s[0]] + s[1..] == text + s;
    }
  }

  lemma QuoteSequence(text: string, next: string, tokens: seq<Token>)
    ensures Lex(Quoted(text), "'\\''" + next, tokens) == Lex(Quoted(text + "'"), next, tokens)
  {
    var after := "'" + next;
    assert ("'\\''" + next)[1..] == "\\''" + next;
    assert ("\\''" + next)[1..][1..] == after && after[1..] == next;
    assert Lex(In(text), "\\''" + next, tokens) == Lex(In(text + "'"), after, tokens);
  }

  // The script, from its end to its beginning.
  function FromTarget(path: string): string {
    Escape(path) + "'"
  }

  function FromDecoder(path: string): string {
    "base64" + " " + ("-d" + " " + (">" + (" " + ("'" + FromTarget(path)))))
  }

  function FromContent(encoded: string, path: string): string {
    encoded + "'" + (" " + ("|" + (" " + FromDecoder(path))))
  }

  function FromFormat(encoded: string, path: string): string {
    "'" + ("%s" + "'" + (" " + ("'" + FromContent(encoded, path))))
  }

  lemma ScriptInParts(encoded: string, path: string)
    ensures WriteScript(encoded, path) == "printf" + " " + FromFormat(encoded, path)
  {
    hide Escape;
  }

  lemma ReadTarget(path: string, tokens: seq<Token>)
    ensures Lex(Quoted(""), FromTarget(path), tokens) == Some(tokens + [Word(path)])
  {
    LexEscaped("", path, "", tokens);
    assert FromTarget(path) + "" == FromTarget(path) && "" + path == path;
  }

  lemma ReadDecoder(path: string, tokens: seq<Token>)
    ensures Lex(Between, FromDecoder(path), tokens) == Some(tokens + [Word("base64"), Word("-d"), Redirect, Word(path)])
  {
    hide Lex, FromTarget;
    var write := ">" + (" " + ("'" + FromTarget(path)));
    LexWord("base64", "-d" + " " + write, tokens);
    LexWord("-d", write, tokens + [Word("base64")]);
    var t := tokens + [Word("base64")] + [Word("-d")];
    OneOperator(" " + ("'" + FromTarget(path)), t);
    BlankEndsWord("", "'" + FromTarget(path), t + [Redirect]);
    OpenQuote(FromTarget(path), t + [Redirect]);
    ReadTarget(path, t + [Redirect]);
    assert t + [Redirect] + [Word(path)] == tokens + [Word("base64"), Word("-d"), Redirect, Word(path)];
  }

  lemma ReadContent(encoded: string, path: string, tokens: seq<Token>)
    requires '\'' !in encoded
    ensures Lex(Quoted(""), FromContent(encoded, path), tokens) ==
            Some(tokens + [Word(encoded), Pipe, Word("base64"), Word("-d"), Redirect, Word(path)])
  {
    hide Lex, FromDecoder;
    var decoder := FromDecoder(path);
    LexQuoted("", encoded, " " + ("|" + (" " + decoder)), tokens);
    assert "" + encoded == encoded;
    BlankEndsWord(encoded, "|" + (" " + decoder), tokens);
    var t := tokens + [Word(encoded)];
    OneOperator(" " + decoder, t);
    BlankEndsWord("", decoder, t + [Pipe]);
    ReadDecoder(path, t + [Pipe]);
    assert t + [Pipe] + [Word("base64"), Word("-d"), Redirect, Word(path)] ==
           tokens + [Word(encoded), Pipe, Word("base64"), Word("-d"), Redirect, Word(path)];
  }

  lemma ReadFormat(encoded: string, path: string, tokens: seq<Token>)
    requires '\'' !in encoded
    ensures Lex(Between, FromFormat(encoded, path), tokens) ==
            Some(tokens + [Word("%s")] + [Word(encoded), Pipe, Word("base64"), Word("-d"), Redirect, Word(path)])
  {
    hide Lex, FromContent;
    var content := FromContent(encoded, path);
    OpenQuote("%s" + "'" + (" " + ("'" + content)), tokens);
    LexQuoted("", "%s", " " + ("'" + content), tokens);
    assert "" + "%s" == "%s";
    BlankEndsWord("%s", "'" + content, tokens);
    OpenQuote(content, tokens + [Word("%s")]);
    ReadContent(encoded, path, tokens + [Word("%s")]);
  }

  /** For every path and every content without a quote, the shell reads exactly these tokens. */
  lemma ScriptReadsBack(encoded: string, path: string)
    requires '\'' !in encoded
    ensures Tokenize(WriteScript(encoded, path)) == Some([
      Word("printf"), Word("%s"), Word(encoded), Pipe, Word("base64"), Word("-d"), Redirect, Word(path)])
  {
    hide FromFormat, WriteScript;
    ScriptInParts(encoded, path);
    LexWord("printf", FromFormat(encoded, path), []);
    ReadFormat(encoded, path, [] + [Word("printf")]);
    assert [] + [Word("printf")] + [Word("%s")] +
      [Word(encoded), Pipe, Word("base64"), Word("-d"), Redirect, Word(path)] ==
      [Word("printf"), Word("%s"), Word(encoded), Pipe, Word("base64"), Word("-d"), Redirect, Word(path)];
  }

  // ----- The write as a whole -----

  /** The script that is handed to `sh -c`. */
  function WriteFile(path: string, content: seq<Byte>): Result<string, PathError> {
    match ValidatePath(path)
    case Failure(error) => Failure(error)
    case Success(cleaned) => Success(WriteScript(Base64.Encode(content), cleaned))
  }

  datatype Write = Write(path: string, content: seq<Byte>)

  /** What running a script writes, for scripts that print one word through the decoder into one file. */
  function Effect(script: string): Option<Write> {
    match Tokenize(script)
    case None => None
    case Some(t) =>
      if |t| == 8 && t[2].Word? && t[7].Word?
         && t == [Word("printf"), Word("%s"), t[2], Pipe, Word("base64"), Word("-d"), Redirect, t[7]] then
        match Base64.Decode(t[2].text)
        case None => None
        case Some(content) => Some(Write(t[7].text, content))
      else None
  }

  /** For every path and content: what is accepted is written, byte for byte, to the cleaned path. */
  lemma WritesWhatWasAsked(path: string, content: seq<Byte>)
    ensures WriteFile(path, content).Success? <==> ValidatePath(path).Success?
    ensures WriteFile(path, content).Success? ==>
      Effect(WriteFile(path, content).value) == Some(Write(Paths.Clean(path), content))
  {
    hide WriteScript, Tokenize, Base64.Encode, Base64.Decode, Paths.Clean;
    if ValidatePath(path).Success? {
      Base64.RoundTrip(content);
      ScriptReadsBack(Base64.Encode(content), Paths.Clean(path));
    }
  }

  lemma NoControlsAcross(a: string, b: string)
    ensures NoControls(a + b) <==> NoControls(a) && NoControls(b)
  {
    assert forall i :: 0 <= i < |a| ==> (a + b)[i] == a[i];
    assert forall i :: 0 <= i < |b| ==> (a + b)[|a| + i] == b[i];
  }

  /** A path that goes into a directory and up again is accepted, refused and written as the one without. */
  lemma DetoursDoNotMatter(a: string, name: string, b: string, content: seq<Byte>)
    requires Paths.IsOrdinary(name) && NoControls(name)
    ensures WriteFile(a + "/" + name + "/../" + b, content) == WriteFile(a + "/" + b, content)
  {
    hide Paths.Clean, WriteScript;
    Paths.UpUndoesDown(a, name, b);
    var long, short := a + "/" + name + "/../" + b, a + "/" + b;
    NoControlsAcross(a + "/" + name + "/../", b);
    NoControlsAcross(a + "/" + name, "/../");
    NoControlsAcross(a + "/", name);
    NoControlsAcross(a + "/", b);
    assert NoControls(long) <==> NoControls(short);
    assert forall path :: (exists i :: 0 <= i < |path| && IsControl(path[i])) <==> !NoControls(path);
  }
}
