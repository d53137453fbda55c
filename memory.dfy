/**
 * The instruction memory (memory.py): the lines of the instruction file,
 * read once at start-up, and the trimming that drops lines from the front
 * until the newline-joined text fits the instruction token budget, then
 * writes the remaining lines back.
 */
module Memory {
  import opened Wrappers
  import opened Text

  /** `f.readlines()`: every line keeps its `\n`; only the last may lack one. */
  function ReadLines(s: string): (lines: seq<string>)
    ensures forall i :: 0 <= i < |lines| ==> lines[i] != []
    ensures forall i :: 0 <= i < |lines| - 1 ==> lines[i][|lines[i]| - 1] == '\n'
    ensures forall i :: 0 <= i < |lines| ==> '\n' !in lines[i][..|lines[i]| - 1]
  {
    if s == [] then []
    else
      var rest := ReadLines(s[1..]);
      if s[0] == '\n' || rest == [] then [[s[0]]] + rest
      else [[s[0]] + rest[0]] + rest[1..]
  }

  /** Writing the lines back (`f.writelines`) reproduces the file read. */
  lemma {:induction false} ReadLinesRoundTrip(s: string)
    ensures Concat(ReadLines(s)) == s
  {
    if s != [] {
      var rest := ReadLines(s[1..]);
      ReadLinesRoundTrip(s[1..]);
      if s[0] == '\n' || rest == [] {
        ConcatAppend([[s[0]]], rest);
        assert Concat([[s[0]]]) == [s[0]];
      } else {
        assert rest == [rest[0]] + rest[1..];
        ConcatAppend([rest[0]], rest[1..]);
        ConcatAppend([[s[0]] + rest[0]], rest[1..]);
        assert Concat([rest[0]]) == rest[0];
        assert Concat([[s[0]] + rest[0]]) == [s[0]] + rest[0];
      }
      assert s == [s[0]] + s[1..];
    }
  }

  /** Whether the newline-joined lines fit the budget, by the tokenizer's count. */
  predicate Fits(lines: seq<string>, numTokens: string -> nat, limit: int)
  {
    numTokens(Join("\n", lines)) <= limit
  }

  /**
   * The lines left by `trim_instruction_context`: drop the first line while
   * the text does not fit; `None` when even the empty text does not fit, so
   * that `pop(0)` on the empty list raises.
   */
  function Trimmed(lines: seq<string>, numTokens: string -> nat, limit: int): (r: Option<seq<string>>)
    ensures r.Some? ==> Fits(r.value, numTokens, limit)
    ensures r.None? ==> !Fits([], numTokens, limit)
    decreases |lines|
  {
    if Fits(lines, numTokens, limit) then Some(lines)
    else if lines == [] then None
    else Trimmed(lines[1..], numTokens, limit)
  }

  /**
   * The result is a suffix that fits and the longest such: every longer
   * suffix does not fit. A context that already fits is kept whole.
   */
  lemma {:induction false} TrimmedIsLongestFit(lines: seq<string>, numTokens: string -> nat, limit: int)
    returns (k: nat)
    requires Trimmed(lines, numTokens, limit).Some?
    ensures k <= |lines| && Trimmed(lines, numTokens, limit).value == lines[k..]
    ensures Fits(lines[k..], numTokens, limit)
    ensures forall j :: 0 <= j < k ==> !Fits(lines[j..], numTokens, limit)
    ensures Fits(lines, numTokens, limit) ==> k == 0
    decreases |lines|
  {
    if Fits(lines, numTokens, limit) {
      assert lines[0..] == lines;
      return 0;
    }
    var k' := TrimmedIsLongestFit(lines[1..], numTokens, limit);
    k := k' + 1;
    assert lines[1..][k'..] == lines[k..];
    forall j | 0 <= j < k
      ensures !Fits(lines[j..], numTokens, limit)
    {
      if j == 0 {
        assert lines[0..] == lines;
      } else {
        assert lines[1..][j - 1..] == lines[j..];
      }
    }
  }

  /** Trimming fails exactly when no suffix fits, the empty one included. */
  lemma {:induction false} TrimmedFailsIffNothingFits(lines: seq<string>, numTokens: string -> nat, limit: int)
    ensures Trimmed(lines, numTokens, limit).None? <==>
      forall j :: 0 <= j <= |lines| ==> !Fits(lines[j..], numTokens, limit)
    decreases |lines|
  {
    if Fits(lines, numTokens, limit) {
      assert lines[0..] == lines;
    } else if lines != [] {
      TrimmedFailsIffNothingFits(lines[1..], numTokens, limit);
      forall j | 1 <= j <= |lines|
        ensures lines[1..][j - 1..] == lines[j..]
      {
      }
      assert lines[0..] == lines;
    }
  }

  /** `instruction_context` and the contents of `INSTRUCTION_FILE`. */
  class InstructionMemory {
    var lines: seq<string>
    var file: Option<string>

    /** Load the file's lines if it exists, else start empty. */
    constructor (file: Option<string>)
      ensures this.file == file
      ensures lines == if file.Some? then ReadLines(file.value) else []
    {
      this.file := file;
      lines := if file.Some? then ReadLines(file.value) else [];
    }

    /**
     * `trim_instruction_context`: pop the first line while the joined text
     * exceeds the limit, then write the remaining lines to the file. If the
     * list runs out first, the pop raises: the list is left empty and the
     * file is not written.
     */
    method Trim(numTokens: string -> nat, limit: int) returns (ok: bool)
      modifies this
      ensures var r := Trimmed(old(lines), numTokens, limit);
        && (ok <==> r.Some?)
        && (r.Some? ==> lines == r.value && file == Some(Concat(r.value)))
        && (r.None? ==> lines == [] && file == old(file))
    {
      while numTokens(Join("\n", lines)) > limit
        invariant Trimmed(lines, numTokens, limit) == Trimmed(old(lines), numTokens, limit)
        invariant file == old(file)
        decreases |lines|
      {
        if lines == [] {
          return false;
        }
        lines := lines[1..];
      }
      file := Some(Concat(lines));
      return true;
    }
  }
}
