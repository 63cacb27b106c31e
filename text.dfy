/**
 * The string operations of Rust's standard library that the program relies on:
 * `join`, `split`, `lines` and the decimal `Display` of an unsigned integer.
 */
module Text {

  /** `parts.join(sep)`: the parts with `sep` between neighbours and nowhere else. */
  function Join(parts: seq<string>, sep: string): string
  {
    if parts == [] then ""
    else if |parts| == 1 then parts[0]
    else parts[0] + sep + Join(parts[1..], sep)
  }

  /** Concatenation is associative; stated for the solver, which does not regroup on its own. */
  lemma ConcatAssociates<T>(a: seq<T>, b: seq<T>, c: seq<T>)
    ensures a + (b + c) == (a + b) + c
  {
  }

  /** Concatenation regrouped: four strings, the last three taken together. */
  lemma Regroup(w: string, x: string, y: string, z: string)
    ensures w + x + y + z == w + (x + y + z)
  {
  }

  /** Joining one more part adds the separator and the part at the end. */
  lemma {:induction false} JoinSnoc(parts: seq<string>, x: string, sep: string)
    requires parts != []
    ensures Join(parts + [x], sep) == Join(parts, sep) + sep + x
  {
    if |parts| == 1 {
      assert parts + [x] == [parts[0], x];
      assert [parts[0], x][1..] == [x];
    } else {
      assert (parts + [x])[1..] == parts[1..] + [x];
      JoinSnoc(parts[1..], x, sep);
      Regroup(parts[0], sep, Join(parts[1..], sep), sep + x);
      assert Join(parts[1..], sep) + sep + x == Join(parts[1..], sep) + (sep + x);
      assert parts[0] + sep + Join(parts[1..], sep) + sep + x == (parts[0] + sep + Join(parts[1..], sep)) + (sep + x);
    }
  }

  /** A join of non-empty parts ends with its last part. */
  lemma {:induction false} JoinEndsWithLast(parts: seq<string>, sep: string)
    requires |parts| >= 1
    ensures var j := Join(parts, sep); var l := parts[|parts| - 1];
      |j| >= |l| && j[|j| - |l|..] == l
  {
    if |parts| > 1 {
      JoinEndsWithLast(parts[1..], sep);
      var j := Join(parts, sep);
      var tail := Join(parts[1..], sep);
      assert j == parts[0] + sep + tail;
      assert j[|j| - |tail|..] == tail;
    }
  }

  /** `s.split(c)`: the maximal runs between occurrences of `c`; "" splits into [""]. */
  function Split(s: string, c: char): (r: seq<string>)
    ensures |r| >= 1
    ensures forall i :: 0 <= i < |r| ==> c !in r[i]
  {
    if s == [] then [""]
    else if s[0] == c then [""] + Split(s[1..], c)
    else
      var rest := Split(s[1..], c);
      [[s[0]] + rest[0]] + rest[1..]
  }

  /** Splitting `w + s` where `w` holds no `c` extends the first piece of `s` by `w`. */
  lemma {:induction false} SplitPrefix(w: string, s: string, c: char)
    requires c !in w
    ensures Split(w + s, c) == [w + Split(s, c)[0]] + Split(s, c)[1..]
  {
    var tail := Split(s, c);
    if w == [] {
      assert w + s == s && w + tail[0] == tail[0];
      assert tail == [tail[0]] + tail[1..];
    } else {
      SplitPrefix(w[1..], s, c);
      assert (w + s)[0] == w[0] && w[0] != c;
      assert (w + s)[1..] == w[1..] + s;
      var rest := Split(w[1..] + s, c);
      assert rest[0] == w[1..] + tail[0] && rest[1..] == tail[1..];
      assert Split(w + s, c) == [[w[0]] + rest[0]] + rest[1..];
      assert [w[0]] + (w[1..] + tail[0]) == w + tail[0];
    }
  }

  /** Splitting a join at a separator no part contains gives the parts back. */
  lemma {:induction false} SplitJoin(parts: seq<string>, c: char)
    requires |parts| >= 1
    requires forall i :: 0 <= i < |parts| ==> c !in parts[i]
    ensures Split(Join(parts, [c]), c) == parts
  {
    if |parts| == 1 {
      SplitPrefix(parts[0], "", c);
      assert parts[0] + "" == parts[0];
    } else {
      var tail := Join(parts[1..], [c]);
      SplitJoin(parts[1..], c);
      assert Join(parts, [c]) == parts[0] + ([c] + tail);
      SplitPrefix(parts[0], [c] + tail, c);
      assert ([c] + tail)[0] == c && ([c] + tail)[1..] == tail;
      assert Split([c] + tail, c) == [""] + parts[1..];
      assert parts[0] + "" == parts[0];
      assert parts == [parts[0]] + parts[1..];
    }
  }

  function StripCr(line: string): string
  {
    if |line| > 0 && line[|line| - 1] == '\r' then line[..|line| - 1] else line
  }

  /** Each piece with one trailing '\r' removed. */
  function StripEach(pieces: seq<string>): (r: seq<string>)
    ensures |r| == |pieces|
    ensures forall i :: 0 <= i < |r| ==> r[i] <= pieces[i]
  {
    if pieces == [] then [] else [StripCr(pieces[0])] + StripEach(pieces[1..])
  }

  /**
   * `s.lines()`: the pieces between '\n' characters; a piece followed by '\n'
   * loses one trailing '\r', and a final empty piece (the string ends in '\n',
   * or is empty) is not a line.
   */
  function Lines(s: string): (r: seq<string>)
    ensures forall i :: 0 <= i < |r| ==> '\n' !in r[i]
  {
    var parts := Split(s, '\n');
    var n := |parts|;
    var terminated := StripEach(parts[..n - 1]);
    assert forall i :: 0 <= i < n - 1 ==> '\n' !in terminated[i] by {
      forall i | 0 <= i < n - 1 ensures '\n' !in terminated[i] {
        assert '\n' !in parts[i];
        assert terminated[i] <= parts[i];
      }
    }
    if parts[n - 1] == "" then terminated else terminated + [parts[n - 1]]
  }

  /** A line that `lines()` reproduces as it is: no '\n' in it and no trailing '\r'. */
  predicate IsPlainLine(line: string)
  {
    '\n' !in line && (line == [] || line[|line| - 1] != '\r')
  }

  lemma {:induction false} StripEachPlain(ls: seq<string>)
    requires forall i :: 0 <= i < |ls| ==> IsPlainLine(ls[i])
    ensures StripEach(ls) == ls
  {
    if ls != [] {
      assert IsPlainLine(ls[0]);
      StripEachPlain(ls[1..]);
    }
  }

  /** When the pieces are plain and the last is not empty, the lines are the pieces. */
  lemma LinesOfPlainPieces(s: string, ls: seq<string>)
    requires Split(s, '\n') == ls
    requires |ls| >= 1 && ls[|ls| - 1] != ""
    requires forall i :: 0 <= i < |ls| ==> IsPlainLine(ls[i])
    ensures Lines(s) == ls
  {
    var n := |ls|;
    StripEachPlain(ls[..n - 1]);
    assert ls == ls[..n - 1] + [ls[n - 1]];
  }

  /** `lines()` undoes a join with "\n" of plain lines whose last one is not empty. */
  lemma LinesOfJoin(ls: seq<string>)
    requires |ls| >= 1 && ls[|ls| - 1] != ""
    requires forall i :: 0 <= i < |ls| ==> IsPlainLine(ls[i])
    ensures Lines(Join(ls, "\n")) == ls
  {
    forall i | 0 <= i < |ls| ensures '\n' !in ls[i] {
      assert IsPlainLine(ls[i]);
    }
    SplitJoin(ls, '\n');
    LinesOfPlainPieces(Join(ls, "\n"), ls);
  }

  lemma LinesOfEmpty()
    ensures Lines("") == []
  {
    assert Split("", '\n') == [""];
  }

  function DigitChar(d: nat): char
    requires d < 10
  {
    "0123456789"[d]
  }

  /** The decimal `Display` of an unsigned integer. */
  function DecimalString(n: nat): (r: string)
    ensures |r| >= 1
    ensures forall i :: 0 <= i < |r| ==> '0' <= r[i] <= '9'
  {
    if n < 10 then [DigitChar(n)] else DecimalString(n / 10) + [DigitChar(n % 10)]
  }

  /** The number that decimal digits denote. */
  function DecimalValue(s: string): nat
    requires forall i :: 0 <= i < |s| ==> '0' <= s[i] <= '9'
  {
    if s == [] then 0 else 10 * DecimalValue(s[..|s| - 1]) + (s[|s| - 1] as int - '0' as int)
  }

  lemma DigitCharValue(d: nat)
    requires d < 10
    ensures DigitChar(d) as int - '0' as int == d
  {
  }

  /** The decimal rendering denotes the number it renders, with no leading zero. */
  lemma {:induction false} DecimalStringValue(n: nat)
    ensures DecimalValue(DecimalString(n)) == n
    ensures |DecimalString(n)| > 1 ==> DecimalString(n)[0] != '0'
  {
    var s := DecimalString(n);
    if n < 10 {
      DigitCharValue(n);
      assert s == [DigitChar(n)];
      assert s[..0] == [];
    } else {
      DecimalStringValue(n / 10);
      DigitCharValue(n % 10);
      assert s[..|s| - 1] == DecimalString(n / 10);
      assert s[|s| - 1] == DigitChar(n % 10);
      assert DecimalValue(s) == 10 * DecimalValue(s[..|s| - 1]) + (s[|s| - 1] as int - '0' as int);
    }
  }
}
