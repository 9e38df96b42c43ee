/** Lexical path cleaning as the program uses it on its own configuration and on request paths. */
module Paths {
  import opened Common

  predicate SlashFree(s: string) {
    '/' !in s
  }

  /** The pieces between slashes. */
  function Split(path: string): (pieces: seq<string>)
    ensures |pieces| >= 1
  {
    if path == "" then [""]
    else
      var rest := Split(path[1..]);
      if path[0] == '/' then [""] + rest else [[path[0]] + rest[0]] + rest[1..]
  }

  function Join(pieces: seq<string>): string {
    if |pieces| == 0 then ""
    else if |pieces| == 1 then pieces[0]
    else pieces[0] + "/" + Join(pieces[1..])
  }

  function Push(out: seq<string>, piece: string, rooted: bool): seq<string> {
    if piece == "" || piece == "." then out
    else if piece != ".." then out + [piece]
    else if out != [] && out[|out| - 1] != ".." then out[..|out| - 1]
    else if rooted then out
    else out + [".."]
  }

  /** Drops empty pieces and ".", and lets ".." cancel the piece before it. */
  function Resolve(pieces: seq<string>, rooted: bool, out: seq<string>): seq<string>
    decreases |pieces|
  {
    if pieces == [] then out
    else Resolve(pieces[1..], rooted, Push(out, pieces[0], rooted))
  }

  predicate Rooted(path: string) {
    path != "" && path[0] == '/'
  }

  function Render(pieces: seq<string>, rooted: bool): string {
    if rooted then "/" + Join(pieces) else if pieces == [] then "." else Join(pieces)
  }

  /** The shortest lexically equivalent path. */
  function Clean(path: string): string {
    Render(Resolve(Split(path), Rooted(path), []), Rooted(path))
  }

  /** Pieces of a clean path: no empty piece, no ".", and ".." only at the front of a relative path. */
  ghost predicate Normal(pieces: seq<string>, rooted: bool) {
    && (forall i :: 0 <= i < |pieces| ==> SlashFree(pieces[i]) && pieces[i] != "" && pieces[i] != ".")
    && (forall i :: 0 <= i < |pieces| && pieces[i] == ".." ==>
          !rooted && forall j :: 0 <= j < i ==> pieces[j] == "..")
  }

  lemma {:induction false} SplitSlashFree(path: string)
    ensures forall i :: 0 <= i < |Split(path)| ==> SlashFree(Split(path)[i])
  {
    if path != "" {
      SplitSlashFree(path[1..]);
    }
  }

  lemma {:induction false} SplitPrepend(piece: string, path: string)
    requires SlashFree(piece)
    ensures Split(piece + path) == [piece + Split(path)[0]] + Split(path)[1..]
  {
    if piece == "" {
      assert piece + path == path;
      assert piece + Split(path)[0] == Split(path)[0];
    } else {
      assert (piece + path)[1..] == piece[1..] + path;
      SplitPrepend(piece[1..], path);
      assert [piece[0]] + (piece[1..] + Split(path)[0]) == piece + Split(path)[0];
    }
  }

  lemma SplitSingle(piece: string)
    requires SlashFree(piece)
    ensures Split(piece) == [piece]
  {
    SplitPrepend(piece, "");
    assert piece + "" == piece;
  }

  lemma {:induction false} SplitJoin(pieces: seq<string>)
    requires pieces != [] && forall i :: 0 <= i < |pieces| ==> SlashFree(pieces[i])
    ensures Split(Join(pieces)) == pieces
  {
    if |pieces| == 1 {
      SplitPrepend(pieces[0], "");
      assert pieces[0] + "" == pieces[0];
    } else {
      var tail := "/" + Join(pieces[1..]);
      SplitJoin(pieces[1..]);
      assert tail[1..] == Join(pieces[1..]);
      assert Split(tail) == [""] + pieces[1..];
      SplitPrepend(pieces[0], tail);
      assert pieces[0] + tail == Join(pieces);
      assert pieces[0] + "" == pieces[0];
    }
  }

  lemma {:induction false} ResolveIsNormal(pieces: seq<string>, rooted: bool, out: seq<string>)
    requires Normal(out, rooted) && forall i :: 0 <= i < |pieces| ==> SlashFree(pieces[i])
    ensures Normal(Resolve(pieces, rooted, out), rooted)
    decreases |pieces|
  {
    if pieces != [] {
      ResolveIsNormal(pieces[1..], rooted, Push(out, pieces[0], rooted));
    }
  }

  lemma {:induction false} ResolveAppend(a: seq<string>, b: seq<string>, rooted: bool, out: seq<string>)
    ensures Resolve(a + b, rooted, out) == Resolve(b, rooted, Resolve(a, rooted, out))
    decreases |a|
  {
    if a == [] {
      assert a + b == b;
    } else {
      assert (a + b)[1..] == a[1..] + b;
      ResolveAppend(a[1..], b, rooted, Push(out, a[0], rooted));
    }
  }

  lemma {:induction false} ResolveNormalIsIdentity(pieces: seq<string>, rooted: bool, out: seq<string>)
    requires Normal(out + pieces, rooted)
    ensures Resolve(pieces, rooted, out) == out + pieces
    decreases |pieces|
  {
    if pieces == [] {
      assert out + pieces == out;
    } else {
      assert (out + pieces)[|out|] == pieces[0];
      assert out != [] ==> (out + pieces)[|out| - 1] == out[|out| - 1];
      assert (out + [pieces[0]]) + pieces[1..] == out + pieces;
      ResolveNormalIsIdentity(pieces[1..], rooted, out + [pieces[0]]);
    }
  }

  /** The pieces of a path's clean form. */
  ghost function CleanPieces(path: string): seq<string> {
    Resolve(Split(path), Rooted(path), [])
  }

  lemma CleanPiecesAreNormal(path: string)
    ensures Normal(CleanPieces(path), Rooted(path))
  {
    SplitSlashFree(path);
    ResolveIsNormal(Split(path), Rooted(path), []);
  }

  /** Reading a rendered normal path gives its pieces back. */
  lemma RenderThenRead(pieces: seq<string>, rooted: bool)
    requires Normal(pieces, rooted)
    ensures Rooted(Render(pieces, rooted)) == rooted
    ensures CleanPieces(Render(pieces, rooted)) == pieces
  {
    var path := Render(pieces, rooted);
    if pieces == [] {
      assert Split(".") == ["."] by { SplitSingle("."); }
      assert Split("/") == ["", ""] by { assert "/"[1..] == ""; }
      assert Resolve(["", ""], true, []) == Resolve(["", ""][1..], true, []) == Resolve([""][1..], true, []);
      assert Resolve(["."], false, []) == Resolve(["."][1..], false, []);
    } else {
      SplitJoin(pieces);
      ResolveNormalIsIdentity(pieces, rooted, []);
      assert [] + pieces == pieces;
      if rooted {
        assert path[1..] == Join(pieces);
        assert Split(path) == [""] + pieces;
      } else {
        assert path[0] == pieces[0][0];
      }
    }
  }

  /** Cleaning twice is cleaning once. */
  lemma CleanIsIdempotent(path: string)
    ensures Clean(Clean(path)) == Clean(path)
    ensures Rooted(Clean(path)) == Rooted(path)
  {
    CleanPiecesAreNormal(path);
    RenderThenRead(CleanPieces(path), Rooted(path));
  }

  lemma {:induction false} JoinAppend(pieces: seq<string>, last: string)
    requires pieces != []
    ensures Join(pieces + [last]) == Join(pieces) + "/" + last
  {
    if |pieces| > 1 {
      assert (pieces + [last])[1..] == pieces[1..] + [last];
      JoinAppend(pieces[1..], last);
    }
  }

  lemma {:induction false} SplitAppend(a: string, b: string)
    ensures Split(a + "/" + b) == Split(a) + Split(b)
  {
    var whole := a + "/" + b;
    if a == "" {
      assert whole[1..] == b;
    } else {
      assert whole[1..] == a[1..] + "/" + b;
      SplitAppend(a[1..], b);
    }
  }

  lemma RenderChild(pieces: seq<string>, rooted: bool, name: string)
    requires Normal(pieces, rooted)
    ensures Render(pieces + [name], rooted) ==
            if pieces != [] then Render(pieces, rooted) + "/" + name
            else if rooted then "/" + name
            else name
  {
    if pieces == [] {
      assert pieces + [name] == [name];
    } else {
      JoinAppend(pieces, name);
    }
  }

  /** Only these two clean paths have no pieces. */
  lemma RootAndHere(base: string)
    requires Clean(base) == base
    ensures CleanPieces(base) == [] <==> base == "/" || base == "."
    ensures base == "/" ==> Rooted(base)
  {
    var pieces := CleanPieces(base);
    CleanPiecesAreNormal(base);
    RenderThenRead(pieces, Rooted(base));
    RenderThenRead([], true);
    RenderThenRead([], false);
    assert Render([], true) == "/";
  }

  /** Appending one ordinary name to a clean path. */
  lemma CleanChild(base: string, name: string)
    requires Clean(base) == base
    requires SlashFree(name) && name !in {"", ".", ".."}
    ensures Clean(base + "/" + name) ==
            if base == "/" then "/" + name else if base == "." then name else base + "/" + name
  {
    var pieces, rooted := CleanPieces(base), Rooted(base);
    CleanPiecesAreNormal(base);
    SplitAppend(base, name);
    SplitSingle(name);
    ResolveAppend(Split(base), [name], rooted, []);
    assert Resolve([name], rooted, pieces) == Resolve([name][1..], rooted, pieces + [name]);
    RootAndHere(base);
    assert (base + "/" + name)[0] == base[0];
    RenderChild(pieces, rooted, name);
  }

  // ----- What cleaning means, in laws about whole paths -----

  /** A name that a directory entry can have. */
  predicate IsOrdinary(name: string) {
    SlashFree(name) && name != "" && name != "." && name != ".."
  }

  /** The pieces of a joined path are resolved one part after the other. */
  lemma CleanPiecesOf(a: string, middle: seq<string>, b: string)
    requires middle != [] && forall i :: 0 <= i < |middle| ==> SlashFree(middle[i])
    ensures var path := a + "/" + Join(middle) + "/" + b;
      CleanPieces(path) ==
        Resolve(Split(b), Rooted(a + "/"), Resolve(middle, Rooted(a + "/"), Resolve(Split(a), Rooted(a + "/"), [])))
      && Rooted(path) == Rooted(a + "/")
  {
    var rooted := Rooted(a + "/");
    SplitAppend(a + "/" + Join(middle), b);
    SplitAppend(a, Join(middle));
    SplitJoin(middle);
    ResolveAppend(Split(a) + middle, Split(b), rooted, []);
    ResolveAppend(Split(a), middle, rooted, []);
    assert (a + "/")[0] == (a + "/" + Join(middle) + "/" + b)[0];
  }

  lemma CleanPiecesOfTwo(a: string, b: string)
    ensures CleanPieces(a + "/" + b) == Resolve(Split(b), Rooted(a + "/"), Resolve(Split(a), Rooted(a + "/"), []))
    ensures Rooted(a + "/" + b) == Rooted(a + "/")
  {
    SplitAppend(a, b);
    ResolveAppend(Split(a), Split(b), Rooted(a + "/"), []);
    assert (a + "/")[0] == (a + "/" + b)[0];
  }

  /** Into a directory and up again is nowhere. */
  lemma UpUndoesDown(a: string, name: string, b: string)
    requires IsOrdinary(name)
    ensures Clean(a + "/" + name + "/../" + b) == Clean(a + "/" + b)
  {
    var rooted := Rooted(a + "/");
    var out := Resolve(Split(a), rooted, []);
    assert Join([name, ".."]) == name + "/.." by {
      assert [name, ".."][1..] == [".."];
    }
    assert a + "/" + name + "/../" + b == a + "/" + Join([name, ".."]) + "/" + b;
    CleanPiecesOf(a, [name, ".."], b);
    CleanPiecesOfTwo(a, b);
    assert Resolve([name, ".."], rooted, out) == Resolve([".."], rooted, out + [name]) by {
      assert [name, ".."][1..] == [".."];
    }
    assert Resolve([".."], rooted, out + [name]) == Resolve([], rooted, (out + [name])[..|out|]) by {
      assert [".."][1..] == [];
    }
    assert (out + [name])[..|out|] == out;
  }

  lemma PieceSaysNothing(a: string, piece: string, b: string)
    requires piece == "." || piece == ""
    ensures Clean(a + "/" + piece + "/" + b) == Clean(a + "/" + b)
  {
    var rooted := Rooted(a + "/");
    CleanPiecesOf(a, [piece], b);
    CleanPiecesOfTwo(a, b);
    assert Resolve([piece], rooted, Resolve(Split(a), rooted, [])) == Resolve(Split(a), rooted, []) by {
      assert [piece][1..] == [];
    }
  }

  /** A dot and an empty piece say nothing. */
  lemma DotsAndBlanksSayNothing(a: string, b: string)
    ensures Clean(a + "/./" + b) == Clean(a + "/" + b)
    ensures Clean(a + "//" + b) == Clean(a + "/" + b)
  {
    hide Clean;
    PieceSaysNothing(a, ".", b);
    PieceSaysNothing(a, "", b);
    assert a + "/./" + b == a + "/" + "." + "/" + b;
    assert a + "//" + b == a + "/" + "" + "/" + b;
  }

  /** Neither does a slash at the end, nor a dot at the beginning of a relative path. */
  lemma EndsSayNothing(path: string)
    ensures path != "" ==> Clean(path + "/") == Clean(path)
    ensures !Rooted(path) ==> Clean("./" + path) == Clean(path)
  {
    if path != "" {
      CleanPiecesOfTwo(path, "");
      assert path + "/" + "" == path + "/" && (path + "/")[0] == path[0];
      var out := Resolve(Split(path), Rooted(path), []);
      assert Resolve([""], Rooted(path), out) == out by {
        assert [""][1..] == [];
      }
    }
    if !Rooted(path) {
      CleanPiecesOfTwo(".", path);
      SplitSingle(".");
      assert "." + "/" + path == "./" + path && ("." + "/")[0] == '.';
      assert Resolve(["."], false, []) == [] by {
        assert ["."][1..] == [];
      }
    }
  }

  /** There is nothing above the root. */
  lemma NothingAboveTheRoot(b: string)
    ensures Clean("/../" + b) == Clean("/" + b)
  {
    CleanPiecesOf("", [".."], b);
    CleanPiecesOfTwo("", b);
    assert "/../" + b == "" + "/" + Join([".."]) + "/" + b && "/" + b == "" + "/" + b;
    assert Split("") == [""];
    assert Resolve([""], true, []) == [] by {
      assert [""][1..] == [];
    }
    assert Resolve([".."], true, []) == [] by {
      assert [".."][1..] == [];
    }
  }

  lemma ClimbingPieces(pieces: seq<string>)
    requires Normal(pieces, false)
    ensures Resolve(pieces, false, [".."]) == [".."] + pieces
  {
    assert forall i :: 1 <= i < |[".."] + pieces| ==> ([".."] + pieces)[i] == pieces[i - 1];
    ResolveNormalIsIdentity(pieces, false, [".."]);
  }

  /** A relative path goes up as often as it says, before anything else. */
  lemma RelativePathsGoUp(b: string)
    requires Clean(b) == b && !Rooted(b)
    ensures Clean("../" + b) == if b == "." then ".." else "../" + b
  {
    var pieces := CleanPieces(b);
    CleanPiecesAreNormal(b);
    CleanPiecesOfTwo("..", b);
    SplitSingle("..");
    assert ".." + "/" + b == "../" + b && (".." + "/")[0] == '.';
    assert Resolve([".."], false, []) == [".."] by {
      assert [".."][1..] == [];
    }
    RootAndHere(b);
    if pieces == [] {
      SplitSingle(".");
      assert Resolve(["."], false, [".."]) == [".."] by {
        assert ["."][1..] == [];
      }
    } else {
      SplitJoin(pieces);
      ClimbingPieces(pieces);
      assert ([".."] + pieces)[1..] == pieces;
    }
  }

  /** An ordinary name below the root is clean, and so is one below a clean path. */
  lemma NamesStay(base: string, name: string)
    requires IsOrdinary(name)
    ensures Clean("/" + name) == "/" + name
    ensures Clean(name) == name
    ensures Clean(base) == base && base != "/" && base != "." ==> Clean(base + "/" + name) == base + "/" + name
  {
    RenderThenRead([name], true);
    RenderThenRead([name], false);
    if Clean(base) == base {
      CleanChild(base, name);
    }
  }

  /** The first part of a path can be cleaned first. */
  lemma CleanTheFirstPart(a: string, b: string)
    requires a != ""
    ensures Clean(a + "/" + b) == Clean(Clean(a) + "/" + b)
  {
    CleanIsIdempotent(a);
    CleanPiecesAreNormal(a);
    RenderThenRead(CleanPieces(a), Rooted(a));
    CleanPiecesOfTwo(a, b);
    CleanPiecesOfTwo(Clean(a), b);
    assert (a + "/")[0] == a[0];
    assert Clean(a) != "" && (Clean(a) + "/")[0] == Clean(a)[0];
  }
}
