/** ASCII text helpers shared by the models: trimming, upper-casing and the
    option and run results that the other modules return. */
module Text {

  datatype Option<+T> = None | Some(value: T)

  /** The outcome of a computation whose loop may fail to end. `Hangs` propagates
      through `:-` the way an endless loop stalls every caller. */
  datatype Run<+T> = Hangs | Ends(value: T) {
    predicate IsFailure() {
      Hangs?
    }

    function PropagateFailure<U>(): Run<U>
      requires Hangs?
    {
      Hangs
    }

    function Extract(): T
      requires Ends?
    {
      value
    }
  }

  predicate IsSpace(c: char) {
    c == ' ' || '\t' <= c <= '\r'
  }

  function TrimLeft(s: string): string {
    if s != [] && IsSpace(s[0]) then TrimLeft(s[1..]) else s
  }

  function TrimRight(s: string): string {
    if s != [] && IsSpace(s[|s| - 1]) then TrimRight(s[..|s| - 1]) else s
  }

  function Trim(s: string): string {
    TrimRight(TrimLeft(s))
  }

  predicate IsBlank(s: string) {
    forall i :: 0 <= i < |s| ==> s[i] in " \t\n\r" || s[i] as int in {11, 12}
  }

  lemma {:induction false} LeftIsBlank(s: string) returns (left: string)
    ensures s == left + TrimLeft(s) && IsBlank(left) && (TrimLeft(s) != "" ==> !IsSpace(TrimLeft(s)[0]))
  {
    if s != [] && IsSpace(s[0]) {
      left := LeftIsBlank(s[1..]);
      assert s == [s[0]] + s[1..];
      left := [s[0]] + left;
    } else {
      left := "";
    }
  }

  lemma {:induction false} RightIsBlank(s: string) returns (right: string)
    ensures s == TrimRight(s) + right && IsBlank(right)
    ensures TrimRight(s) != "" ==> !IsSpace(TrimRight(s)[|TrimRight(s)| - 1])
  {
    var n := |s| - 1;
    if s != [] && IsSpace(s[n]) {
      right := RightIsBlank(s[..n]);
      assert s == s[..n] + [s[n]];
      right := right + [s[n]];
    } else {
      right := "";
    }
  }

  lemma BlankOne(c: char)
    ensures IsBlank([c]) <==> IsSpace(c)
  {
    assert [c][0] == c;
  }

  /** Trimming cuts blanks off both ends, and no more. */
  lemma TrimCutsBlanks(s: string) returns (left: string, right: string)
    ensures s == left + Trim(s) + right && IsBlank(left) && IsBlank(right)
    ensures Trim(s) != "" ==> !IsBlank([Trim(s)[0]]) && !IsBlank([Trim(s)[|Trim(s)| - 1]])
  {
    left := LeftIsBlank(s);
    right := RightIsBlank(TrimLeft(s));
    if Trim(s) != "" {
      BlankOne(Trim(s)[0]);
      BlankOne(Trim(s)[|Trim(s)| - 1]);
      assert TrimLeft(s)[0] == Trim(s)[0];
    }
  }

  function UpperChar(c: char): char {
    if 'a' <= c <= 'z' then (c as int - 32) as char else c
  }

  function Upper(s: string): string {
    if s == [] then [] else [UpperChar(s[0])] + Upper(s[1..])
  }

  /** Upper-casing moves the 26 small letters up and nothing else. */
  lemma {:induction false} UpperIsByCharacter(s: string)
    ensures |Upper(s)| == |s|
    ensures forall i :: 0 <= i < |s| ==>
              if s[i] < 'a' || s[i] > 'z' then Upper(s)[i] == s[i]
              else 'A' <= Upper(s)[i] <= 'Z' && s[i] as int - Upper(s)[i] as int == 'a' as int - 'A' as int
  {
    if s != [] {
      UpperIsByCharacter(s[1..]);
    }
  }

  /** Two texts name the same callsign, runway or airport exactly when their tokens are equal. */
  function Token(s: string): string {
    if s == [] then []
    else if IsSpace(s[0]) then Token(s[1..])
    else if IsSpace(s[|s| - 1]) then Token(s[..|s| - 1])
    else Upper(s)
  }

  lemma {:induction false} TokenIsUpperTrim(s: string)
    ensures Token(s) == Upper(Trim(s))
  {
    if s != [] {
      if IsSpace(s[0]) {
        TokenIsUpperTrim(s[1..]);
      } else if IsSpace(s[|s| - 1]) {
        TokenIsUpperTrim(s[..|s| - 1]);
        assert TrimLeft(s[..|s| - 1]) == s[..|s| - 1];
      }
    }
  }

  function Abs(x: int): nat {
    if x < 0 then -x else x
  }
}
