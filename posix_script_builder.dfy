/**
 * The script emitter: an append-only list of comments and commands, rendered
 * once into the text of a POSIX shell script.
 */
module PosixScriptBuilder {
  import opened Text
  import opened Bytes
  import opened Outcomes
  import Consensus
  import Cli

  /** A program name and its arguments, already quoted for the shell. */
  datatype Command = Command(command: string, args: seq<string>)

  /** `Display for Command`: the program name and the arguments, separated by single spaces. */
  function RenderCommand(c: Command): string
  {
    Join([c.command] + c.args, " ")
  }

  /** Free text, possibly over several lines. */
  datatype Comment = Comment(text: string)

  /** Each line behind the shell comment marker "# ". */
  function Marked(lines: seq<string>): (r: seq<string>)
    ensures |r| == |lines|
  {
    seq(|lines|, i requires 0 <= i < |lines| => "# " + lines[i])
  }

  /** `Display for Comment`: the text's lines, each marked, joined by "\n". */
  function RenderComment(c: Comment): string
  {
    Join(Marked(Lines(c.text)), "\n")
  }

  datatype ScriptItem = CommandItem(cmd: Command) | CommentItem(comment: Comment)

  function RenderItem(item: ScriptItem): string
  {
    match item
    case CommandItem(c) => RenderCommand(c)
    case CommentItem(c) => RenderComment(c)
  }

  /** An item as `finalize` sees it: whether it is a comment, and its displayed text. */
  datatype Piece = Piece(isComment: bool, text: string)

  function ItemPiece(item: ScriptItem): Piece
  {
    Piece(item.CommentItem?, RenderItem(item))
  }

  /** The items in order, each as a piece. */
  function Pieces(items: seq<ScriptItem>): (r: seq<Piece>)
    ensures |r| == |items|
  {
    seq(|items|, i requires 0 <= i < |items| => ItemPiece(items[i]))
  }

  /** Piece `i` is item `i`'s kind and displayed text. */
  lemma PieceAt(items: seq<ScriptItem>, i: nat)
    requires i < |items|
    ensures Pieces(items)[i].isComment == items[i].CommentItem?
    ensures Pieces(items)[i].text == RenderItem(items[i])
  {
  }

  /**
   * What `finalize` writes after an item, given whether there is a next item and
   * whether it is a comment: a blank line after a comment followed by a comment
   * and after a command followed by anything; a single newline after a comment
   * followed by a command, and after the last item.
   */
  function Separator(isComment: bool, next: Option<bool>): string
  {
    if isComment then (if next == Some(true) then "\n\n" else "\n")
    else if next.Some? then "\n\n" else "\n"
  }

  /** Whether the piece at `i`, if any, is a comment. */
  function PeekKind(ps: seq<Piece>, i: nat): Option<bool>
  {
    if i < |ps| then Some(ps[i].isComment) else None
  }

  /** The text of a sequence of pieces: each text, then its separator. */
  function Layout(ps: seq<Piece>): string
  {
    if ps == [] then ""
    else ps[0].text + Separator(ps[0].isComment, PeekKind(ps, 1)) + Layout(ps[1..])
  }

  /** The text of the whole script. */
  function Finalized(items: seq<ScriptItem>): string
  {
    Layout(Pieces(items))
  }

  /**
   * What appending an item of the second kind adds between the newline that
   * ends an item of the first kind and the new item: nothing after a comment
   * followed by a command, one more newline (a blank line) otherwise.
   */
  function Gap(prevIsComment: bool, nextIsComment: bool): string
  {
    if prevIsComment && !nextIsComment then "" else "\n"
  }

  lemma LayoutSingle(q: Piece)
    ensures Layout([q]) == q.text + "\n"
  {
    assert [q][1..] == [];
  }

  /** Before a next item, the separator is a newline and then the gap. */
  lemma SeparatorBeforeNext(isComment: bool, nextIsComment: bool)
    ensures Separator(isComment, Some(nextIsComment)) == "\n" + Gap(isComment, nextIsComment)
  {
    if isComment && !nextIsComment {
      assert "\n" + "" == "\n";
    } else {
      assert "\n" + "\n" == "\n\n";
    }
  }

  lemma LayoutCons(a: Piece, rest: seq<Piece>)
    requires rest != []
    ensures Layout([a] + rest) == a.text + ("\n" + Gap(a.isComment, rest[0].isComment)) + Layout(rest)
  {
    var ps := [a] + rest;
    assert ps[0] == a && ps[1..] == rest;
    assert PeekKind(ps, 1) == Some(rest[0].isComment);
    SeparatorBeforeNext(a.isComment, rest[0].isComment);
  }

  /** Appending to a single piece: its text, its newline, the gap, the new piece. */
  lemma LayoutPair(a: Piece, q: Piece)
    ensures Layout([a, q]) == Layout([a]) + Gap(a.isComment, q.isComment) + q.text + "\n"
  {
    assert [a, q] == [a] + [q];
    LayoutCons(a, [q]);
    LayoutSingle(a);
    LayoutSingle(q);
  }

  lemma {:induction false} LayoutSnoc(ps: seq<Piece>, q: Piece)
    ensures ps == [] ==> Layout(ps + [q]) == q.text + "\n"
    ensures ps != [] ==> Layout(ps + [q]) == Layout(ps) + Gap(ps[|ps| - 1].isComment, q.isComment) + q.text + "\n"
    decreases |ps|
  {
    if ps == [] {
      assert ps + [q] == [q];
      LayoutSingle(q);
    } else if |ps| == 1 {
      assert ps == [ps[0]] && ps + [q] == [ps[0], q];
      LayoutPair(ps[0], q);
    } else {
      var a := ps[0];
      var rest := ps[1..];
      var g := Gap(ps[|ps| - 1].isComment, q.isComment);
      assert rest[|rest| - 1] == ps[|ps| - 1];
      LayoutSnoc(rest, q);
      Regroup(Layout(rest), g, q.text, "\n");
      LayoutSnocStep(a, rest, q, g + q.text + "\n");
      assert ps == [a] + rest;
      assert ps + [q] == [a] + (rest + [q]);
      Regroup(Layout(ps), g, q.text, "\n");
    }
  }

  /** The inductive step of `LayoutSnoc`: a piece in front of a non-empty rest. */
  lemma LayoutSnocStep(a: Piece, rest: seq<Piece>, q: Piece, t: string)
    requires rest != []
    requires Layout(rest + [q]) == Layout(rest) + t
    ensures Layout([a] + (rest + [q])) == Layout([a] + rest) + t
  {
    var sa := "\n" + Gap(a.isComment, rest[0].isComment);
    LayoutCons(a, rest + [q]);
    LayoutCons(a, rest);
    assert (rest + [q])[0] == rest[0];
    ConcatAssociates(a.text + sa, Layout(rest), t);
  }

  /** The text from piece `i` on: that piece, its separator, and the text from `i + 1` on. */
  lemma LayoutAt(ps: seq<Piece>, i: nat)
    requires i < |ps|
    ensures Layout(ps[i..]) == ps[i].text + Separator(ps[i].isComment, PeekKind(ps, i + 1)) + Layout(ps[i + 1..])
  {
    assert ps[i..][0] == ps[i];
    assert ps[i..][1..] == ps[i + 1..];
    assert PeekKind(ps[i..], 1) == PeekKind(ps, i + 1);
  }

  lemma {:induction false} PiecesSnoc(items: seq<ScriptItem>, x: ScriptItem)
    ensures Pieces(items + [x]) == Pieces(items) + [ItemPiece(x)]
  {
    assert forall i :: 0 <= i < |items| ==> (items + [x])[i] == items[i];
  }

  /**
   * Appending an item to the script extends the text: the old text, the gap the
   * previous item calls for, the new item, and one final newline.
   */
  lemma FinalizedSnoc(items: seq<ScriptItem>, x: ScriptItem)
    ensures items == [] ==> Finalized(items + [x]) == RenderItem(x) + "\n"
    ensures items != [] ==>
              Finalized(items + [x]) ==
              Finalized(items) + Gap(items[|items| - 1].CommentItem?, x.CommentItem?) + RenderItem(x) + "\n"
  {
    PiecesSnoc(items, x);
    LayoutSnoc(Pieces(items), ItemPiece(x));
  }

  /** The empty script renders as the empty text. */
  lemma FinalizedEmpty()
    ensures Finalized([]) == ""
  {
  }

  /** A non-empty script's text ends with its last item followed by exactly one newline. */
  lemma FinalizedEndsWithLastItem(items: seq<ScriptItem>)
    requires items != []
    ensures var t := Finalized(items);
      var last := RenderItem(items[|items| - 1]);
      |t| >= |last| + 1 && t[|t| - |last| - 1..] == last + "\n"
  {
    var n := |items|;
    var last := RenderItem(items[n - 1]);
    assert items == items[..n - 1] + [items[n - 1]];
    FinalizedSnoc(items[..n - 1], items[n - 1]);
    var front := if n == 1 then "" else Finalized(items[..n - 1]) + Gap(items[n - 2].CommentItem?, items[n - 1].CommentItem?);
    assert Finalized(items) == front + (last + "\n");
    SuffixOfConcat(front, last + "\n");
  }

  lemma SuffixOfConcat(a: string, b: string)
    ensures (a + b)[|a + b| - |b|..] == b
  {
  }

  /**
   * If the last item renders as a non-empty text that does not end in a
   * newline, the script text does not end in a blank line.
   */
  lemma FinalizedNoTrailingBlankLine(items: seq<ScriptItem>)
    requires items != []
    requires var last := RenderItem(items[|items| - 1]); last != "" && last[|last| - 1] != '\n'
    ensures var t := Finalized(items); |t| >= 2 && t[|t| - 1] == '\n' && t[|t| - 2] != '\n'
  {
    FinalizedEndsWithLastItem(items);
    var t := Finalized(items);
    var last := RenderItem(items[|items| - 1]);
    var k := |t| - |last| - 1;
    var suffix := t[k..];
    assert suffix == last + "\n";
    assert suffix[|last|] == '\n' && suffix[|last| - 1] == last[|last| - 1];
    assert t[|t| - 1] == suffix[|last|] && t[|t| - 2] == suffix[|last| - 1];
  }

  /** A comment whose text is one non-empty line renders as that line behind "# ". */
  lemma RenderSingleLineComment(line: string)
    requires line != "" && '\n' !in line
    ensures RenderComment(Comment(line)) == "# " + line
  {
    SplitPrefix(line, "", '\n');
    assert line + "" == line;
    assert Split(line, '\n') == [line];
    assert Lines(line) == [line];
  }

  /** A comment made of plain lines renders as each line behind "# ", joined by "\n". */
  lemma RenderCommentOfLines(ls: seq<string>)
    requires |ls| >= 1 && ls[|ls| - 1] != ""
    requires forall i :: 0 <= i < |ls| ==> IsPlainLine(ls[i])
    ensures RenderComment(Comment(Join(ls, "\n"))) == Join(Marked(ls), "\n")
  {
    LinesOfJoin(ls);
  }

  /**
   * Every line of a rendered comment is marked: splitting the rendering at
   * newlines gives the text's lines, each behind "# ". So a rendered comment
   * never ends in a newline.
   */
  lemma RenderCommentLines(c: Comment)
    requires Lines(c.text) != []
    ensures Split(RenderComment(c), '\n') == Marked(Lines(c.text))
    ensures var r := RenderComment(c); r != "" && r[|r| - 1] != '\n'
  {
    var ls := Lines(c.text);
    var m := Marked(ls);
    forall i | 0 <= i < |m| ensures '\n' !in m[i] {
      assert m[i] == "# " + ls[i];
      assert '\n' !in ls[i];
    }
    SplitJoin(m, '\n');
    var r := RenderComment(c);
    var pieces := Split(r, '\n');
    JoinEndsWithLast(m, "\n");
    assert '\n' !in m[|m| - 1];
  }

  /** Splitting a rendered command at spaces gives its words back, when no word holds a space. */
  lemma RenderCommandWords(c: Command)
    requires ' ' !in c.command
    requires forall i :: 0 <= i < |c.args| ==> ' ' !in c.args[i]
    ensures Split(RenderCommand(c), ' ') == [c.command] + c.args
  {
    var words := [c.command] + c.args;
    forall i | 0 <= i < |words| ensures ' ' !in words[i] {
      if i > 0 {
        assert words[i] == c.args[i - 1];
      }
    }
    SplitJoin(words, ' ');
  }

  /**
   * Two comments and a command render as the first comment, a blank line, the
   * second comment, a single newline (no blank line), the command and a final
   * newline.
   */
  lemma FinalizedExample(c1: Comment, c2: Comment, x: Command)
    ensures Finalized([CommentItem(c1), CommentItem(c2), CommandItem(x)])
         == RenderComment(c1) + "\n\n" + RenderComment(c2) + "\n" + RenderCommand(x) + "\n"
  {
    var items := [CommentItem(c1), CommentItem(c2), CommandItem(x)];
    assert Pieces(items) == [Piece(true, RenderComment(c1)), Piece(true, RenderComment(c2)), Piece(false, RenderCommand(x))];
    LayoutCommentsThenCommand(RenderComment(c1), RenderComment(c2), RenderCommand(x));
  }

  lemma LayoutCommentsThenCommand(t1: string, t2: string, t3: string)
    ensures Layout([Piece(true, t1), Piece(true, t2), Piece(false, t3)]) == t1 + "\n\n" + t2 + "\n" + t3 + "\n"
  {
    var p1, p2, p3 := Piece(true, t1), Piece(true, t2), Piece(false, t3);
    LayoutSingle(p3);
    LayoutCons(p2, [p3]);
    LayoutCons(p1, [p2, p3]);
    assert [p2] + [p3] == [p2, p3];
    assert [p1] + [p2, p3] == [p1, p2, p3];
    assert Layout([p2, p3]) == t2 + "\n" + (t3 + "\n");
    Regroup(t1, "\n\n", t2 + "\n", t3 + "\n");
  }

  /** The JSON-RPC request that `curl_rpc` sends. */
  datatype RpcRequest = RpcRequest(jsonrpc: string, id: string, rpcMethod: string, params: seq<string>)

  const JSONRPC_VERSION: string := "2.0"
  const REQUEST_ID: string := "bip347-enforcer-test"

  /** The `curl` invocation that posts `json` to the node with the given credentials. */
  function CurlRpcCommand(rpcAddr: string, rpcAuth: Cli.RpcAuth, json: string): Command
  {
    Command("curl", [
      "'" + rpcAddr + "'",
      "-H",
      "'Content-Type: application/json'",
      "--user",
      "'" + rpcAuth.rpcUser + ":" + rpcAuth.rpcPass + "'",
      "--data-binary",
      "'" + json + "'"
    ])
  }

  /** The seven arguments of the `curl` call render as one shell command line. */
  lemma CurlRpcCommandLine(rpcAddr: string, rpcAuth: Cli.RpcAuth, json: string)
    ensures |CurlRpcCommand(rpcAddr, rpcAuth, json).args| == 7
    ensures RenderCommand(CurlRpcCommand(rpcAddr, rpcAuth, json)) ==
      "curl" + " " + ("'" + rpcAddr + "'") + " " + "-H" + " " + "'Content-Type: application/json'"
      + " " + "--user" + " " + ("'" + rpcAuth.rpcUser + ":" + rpcAuth.rpcPass + "'")
      + " " + "--data-binary" + " " + ("'" + json + "'")
  {
    var c := CurlRpcCommand(rpcAddr, rpcAuth, json);
    var a := c.args;
    assert [c.command] + a == [c.command, a[0], a[1], a[2], a[3], a[4], a[5]] + [a[6]];
    JoinSnoc([c.command], a[0], " ");
    JoinSnoc([c.command, a[0]], a[1], " ");
    JoinSnoc([c.command, a[0], a[1]], a[2], " ");
    JoinSnoc([c.command, a[0], a[1], a[2]], a[3], " ");
    JoinSnoc([c.command, a[0], a[1], a[2], a[3]], a[4], " ");
    JoinSnoc([c.command, a[0], a[1], a[2], a[3], a[4]], a[5], " ");
    JoinSnoc([c.command, a[0], a[1], a[2], a[3], a[4], a[5]], a[6], " ");
    assert [c.command] + [a[0]] == [c.command, a[0]];
    assert [c.command, a[0]] + [a[1]] == [c.command, a[0], a[1]];
    assert [c.command, a[0], a[1]] + [a[2]] == [c.command, a[0], a[1], a[2]];
    assert [c.command, a[0], a[1], a[2]] + [a[3]] == [c.command, a[0], a[1], a[2], a[3]];
    assert [c.command, a[0], a[1], a[2], a[3]] + [a[4]] == [c.command, a[0], a[1], a[2], a[3], a[4]];
    assert [c.command, a[0], a[1], a[2], a[3], a[4]] + [a[5]] == [c.command, a[0], a[1], a[2], a[3], a[4], a[5]];
    assert Join([c.command], " ") == c.command;
  }

  /** The `submitblock` request for a block: its serialisation in lower-case hex. */
  function SubmitBlockRequest(p: Consensus.Primitives, block: Consensus.Block): RpcRequest
  {
    RpcRequest(JSONRPC_VERSION, REQUEST_ID, "submitblock", [LowerHex(p.serializeBlock(block))])
  }

  /** The script item `submitblock` appends for a block. */
  function SubmitBlockItem(p: Consensus.Primitives, toJson: RpcRequest -> string,
                           rpcAddr: string, rpcAuth: Cli.RpcAuth, block: Consensus.Block): ScriptItem
  {
    CommandItem(CurlRpcCommand(rpcAddr, rpcAuth, toJson(SubmitBlockRequest(p, block))))
  }

  /**
   * `OutputPosixScriptBuilder`. The node address is held as the text it
   * displays as; the items are appended at the back and never removed.
   */
  class OutputPosixScriptBuilder {
    var rpcAddr: string
    var rpcAuth: Cli.RpcAuth
    var script: seq<ScriptItem>

    /** `new`: an empty script for the given node. */
    constructor (rpcAddr: string, rpcAuth: Cli.RpcAuth)
      ensures this.rpcAddr == rpcAddr && this.rpcAuth == rpcAuth
      ensures script == []
    {
      this.rpcAddr := rpcAddr;
      this.rpcAuth := rpcAuth;
      script := [];
    }

    /** `command`: appends one command. */
    method PushCommand(command: string, args: seq<string>)
      modifies this
      ensures script == old(script) + [CommandItem(Command(command, args))]
      ensures rpcAddr == old(rpcAddr) && rpcAuth == old(rpcAuth)
    {
      script := script + [CommandItem(Command(command, args))];
    }

    /** `comment`: appends one comment. */
    method PushComment(text: string)
      modifies this
      ensures script == old(script) + [CommentItem(Comment(text))]
      ensures rpcAddr == old(rpcAddr) && rpcAuth == old(rpcAuth)
    {
      script := script + [CommentItem(Comment(text))];
    }

    /** `finalize`: renders the items in order, looking one item ahead for each separator. */
    method Finalize() returns (res: string)
      ensures res == Finalized(script)
    {
      ghost var ps := Pieces(script);
      res := "";
      var i := 0;
      while i < |script|
        invariant 0 <= i <= |script|
        invariant res + Layout(ps[i..]) == Layout(ps)
      {
        var item := script[i];
        var hasNext := i + 1 < |script|;
        LayoutAt(ps, i);
        PieceAt(script, i);
        if hasNext {
          PieceAt(script, i + 1);
        }
        ghost var before := res;
        ghost var sep := Separator(ps[i].isComment, PeekKind(ps, i + 1));
        match item {
          case CommentItem(c) =>
            res := res + RenderComment(c);
            if hasNext && script[i + 1].CommentItem? {
              res := res + "\n\n";
            } else {
              res := res + "\n";
            }
          case CommandItem(c) =>
            res := res + RenderCommand(c);
            if hasNext {
              res := res + "\n\n";
            } else {
              res := res + "\n";
            }
        }
        assert res == before + ps[i].text + sep;
        Regroup(before, ps[i].text, sep, Layout(ps[i + 1..]));
        i := i + 1;
      }
      assert ps[i..] == [];
    }

    /** `curl_rpc`: appends one `curl` command posting the JSON-RPC request. */
    method CurlRpc(toJson: RpcRequest -> string, rpcMethod: string, params: seq<string>)
      modifies this
      ensures script == old(script) + [CommandItem(CurlRpcCommand(rpcAddr, rpcAuth,
                                          toJson(RpcRequest(JSONRPC_VERSION, REQUEST_ID, rpcMethod, params))))]
      ensures rpcAddr == old(rpcAddr) && rpcAuth == old(rpcAuth)
    {
      var request := RpcRequest(JSONRPC_VERSION, REQUEST_ID, rpcMethod, params);
      var args := [
        "'" + rpcAddr + "'",
        "-H",
        "'Content-Type: application/json'",
        "--user",
        "'" + rpcAuth.rpcUser + ":" + rpcAuth.rpcPass + "'",
        "--data-binary",
        "'" + toJson(request) + "'"
      ];
      PushCommand("curl", args);
    }

    /** `submitblock`: appends the one command that submits `block`. */
    method SubmitBlock(p: Consensus.Primitives, toJson: RpcRequest -> string, block: Consensus.Block)
      modifies this
      ensures script == old(script) + [SubmitBlockItem(p, toJson, rpcAddr, rpcAuth, block)]
      ensures rpcAddr == old(rpcAddr) && rpcAuth == old(rpcAuth)
    {
      CurlRpc(toJson, "submitblock", [LowerHex(p.serializeBlock(block))]);
    }
  }
}
