/**
 * Output text as a reader of the terminal sees it: the chunks written by
 * successive `<<` statements run together into one string, which splits
 * into lines at each newline.
 */
module TextLines {

  /** The position of the first `c` in `s`. */
  function Find(s: string, c: char): (k: nat)
    requires c in s
    ensures k < |s| && s[k] == c && c !in s[..k]
  {
    if s[0] == c then 0
    else
      var k := 1 + Find(s[1..], c);
      assert s[..k] == [s[0]] + s[1..][..k - 1];
      k
  }

  /** The pieces of `s` between occurrences of `d`; there is always at least one. */
  function Fields(s: string, d: char): (r: seq<string>)
    ensures |r| >= 1
    ensures forall i :: 0 <= i < |r| ==> d !in r[i]
    decreases |s|
  {
    if d !in s then [s]
    else
      var k := Find(s, d);
      [s[..k]] + Fields(s[k + 1..], d)
  }

  /** The first field ends at the first separator. */
  lemma FieldsCons(a: string, d: char, b: string)
    requires d !in a
    ensures Fields(a + [d] + b, d) == [a] + Fields(b, d)
  {
    var s := a + [d] + b;
    assert s[|a|] == d;
    var k := Find(s, d);
    assert k == |a|;
    assert s[..k] == a;
    assert s[k + 1..] == b;
  }

  /** Three pieces joined by a separator they do not contain split back into those pieces. */
  lemma ThreeFields(x: string, y: string, z: string, d: char)
    requires d !in x && d !in y && d !in z
    ensures Fields(x + [d] + y + [d] + z, d) == [x, y, z]
  {
    assert x + [d] + y + [d] + z == x + [d] + (y + [d] + z);
    FieldsCons(x, d, y + [d] + z);
    FieldsCons(y, d, z);
  }

  /** The lines of `s`, without their newlines; a final newline ends the last line. */
  function Lines(s: string): (r: seq<string>)
    ensures forall i :: 0 <= i < |r| ==> '\n' !in r[i]
  {
    var f := Fields(s, '\n');
    if f[|f| - 1] == "" then f[..|f| - 1] else f
  }

  /** Writes each line followed by a newline: what `<< line << std::endl` does line by line. */
  function JoinLines(ls: seq<string>): (r: string)
  {
    if ls == [] then "" else ls[0] + "\n" + JoinLines(ls[1..])
  }

  lemma {:induction false} FieldsJoinLines(ls: seq<string>)
    requires forall i :: 0 <= i < |ls| ==> '\n' !in ls[i]
    ensures Fields(JoinLines(ls), '\n') == ls + [""]
  {
    if ls == [] {
      assert '\n' !in JoinLines(ls);
    } else {
      var rest := JoinLines(ls[1..]);
      assert JoinLines(ls) == ls[0] + ['\n'] + rest;
      FieldsCons(ls[0], '\n', rest);
      FieldsJoinLines(ls[1..]);
      assert ls == [ls[0]] + ls[1..];
    }
  }

  /** Splitting into lines undoes joining them. */
  lemma LinesJoinLines(ls: seq<string>)
    requires forall i :: 0 <= i < |ls| ==> '\n' !in ls[i]
    ensures Lines(JoinLines(ls)) == ls
  {
    FieldsJoinLines(ls);
  }

  /** Joining two runs of lines is joining them one after the other. */
  lemma {:induction false} JoinLinesAppend(xs: seq<string>, ys: seq<string>)
    ensures JoinLines(xs + ys) == JoinLines(xs) + JoinLines(ys)
  {
    if xs == [] {
      assert xs + ys == ys;
    } else {
      assert (xs + ys)[1..] == xs[1..] + ys;
      JoinLinesAppend(xs[1..], ys);
    }
  }

  /** All chunks written to a stream, in order, as one string. */
  function Flatten(chunks: seq<string>): (r: string)
    ensures |chunks| == 1 ==> r == chunks[0]
  {
    if chunks == [] then "" else chunks[0] + Flatten(chunks[1..])
  }

  lemma {:induction false} FlattenAppend(xs: seq<string>, x: string)
    ensures Flatten(xs + [x]) == Flatten(xs) + x
  {
    if xs != [] {
      assert (xs + [x])[1..] == xs[1..] + [x];
      FlattenAppend(xs[1..], x);
    }
  }
}
