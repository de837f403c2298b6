/**
 * Model of examples/cube_task/main.py: the operator types numbers one per
 * line until the numbers 1 to 6 have all been seen. Anything that is not a
 * decimal number from 1 to 8 is answered with "Incorrect input!"; 7 and 8
 * are accepted but not collected; "The cube was assembled." ends the run.
 * Console input is the finite sequence of lines the operator types, and
 * console output the sequence of messages printed. A line of more digits
 * than `int()` converts makes it raise `ValueError`, which ends the run.
 */
module CubeTask {
  import opened Common

  const MinAllowedNumber: int := 1
  const MaxAllowedNumber: int := 8

  /** The cube's faces: what must be collected before the loop ends. */
  const Faces: set<int> := {1, 2, 3, 4, 5, 6}

  /** The two messages the collector prints. */
  datatype CubeCollectionState = WrongInput | End
  {
    function Value(): string
    {
      match this
      case WrongInput => "Incorrect input!"
      case End => "The cube was assembled."
    }
  }

  /** `str.isdigit()` for ASCII text: non-empty and every character a digit. */
  predicate IsDigits(s: string)
  {
    |s| > 0 && AllDigits(s)
  }

  predicate AllDigits(s: string)
  {
    forall i :: 0 <= i < |s| ==> '0' <= s[i] <= '9'
  }

  /** `int(s)` raises `ValueError` on a string of decimal digits: there are
      more of them than `MaxStrDigits`. */
  predicate IntRaises(s: string)
  {
    IsDigits(s) && |s| > MaxStrDigits
  }

  /** `int(s)` for a string of decimal digits. */
  function DecimalValue(s: string): nat
    requires AllDigits(s)
  {
    if s == [] then 0
    else 10 * DecimalValue(s[..|s| - 1]) + (s[|s| - 1] as int - '0' as int)
  }

  /** The decimal spelling of `n`, without leading zeros. */
  function ToDecimal(n: nat): (s: string)
    ensures IsDigits(s)
    ensures DecimalValue(s) == n
  {
    var digit := ['0' + ((n % 10) as char)];
    if n < 10 then digit
    else
      var prefix := ToDecimal(n / 10);
      assert (prefix + digit)[..|prefix + digit| - 1] == prefix;
      prefix + digit
  }

  /** `check_number_in_allowed_range`: false for anything that is not all
      digits, `None` for the `ValueError` of `int()` on too many digits,
      otherwise whether the number lies in the closed range. */
  function CheckNumberInAllowedRange(input: string, min: int, max: int): (r: Option<bool>)
    ensures r.None? <==> IntRaises(input)
    ensures r == Some(true) <==> IsDigits(input) && !IntRaises(input) && min <= DecimalValue(input) <= max
  {
    if !IsDigits(input) then Some(false)
    else if |input| > MaxStrDigits then None
    else Some(min <= DecimalValue(input) <= max)
  }

  /** Every natural number written out in decimal passes the check exactly
      when it lies in the range, unless its numeral is too long for `int()`;
      signs and empty text never pass. */
  lemma CheckOfDecimal(n: nat, min: int, max: int)
    ensures |ToDecimal(n)| <= MaxStrDigits ==>
              CheckNumberInAllowedRange(ToDecimal(n), min, max) == Some(min <= n <= max)
    ensures |ToDecimal(n)| > MaxStrDigits ==> CheckNumberInAllowedRange(ToDecimal(n), min, max).None?
    ensures CheckNumberInAllowedRange("-" + ToDecimal(n), min, max) == Some(false)
    ensures CheckNumberInAllowedRange("+" + ToDecimal(n), min, max) == Some(false)
    ensures CheckNumberInAllowedRange("", min, max) == Some(false)
  {
    assert ("-" + ToDecimal(n))[0] == '-';
    assert ("+" + ToDecimal(n))[0] == '+';
  }

  /** The numbers collected from a prefix of the input: the accepted ones
      that are at most 6. */
  function Collected(inputs: seq<string>): (s: set<int>)
    ensures s <= Faces
  {
    if inputs == [] then {}
    else
      var last := inputs[|inputs| - 1];
      var before := Collected(inputs[..|inputs| - 1]);
      if CheckNumberInAllowedRange(last, MinAllowedNumber, MaxAllowedNumber) == Some(true)
         && DecimalValue(last) <= 6
      then before + {DecimalValue(last)}
      else before
  }

  /** One "Incorrect input!" per rejected line of a prefix of the input. */
  function Complaints(inputs: seq<string>): seq<CubeCollectionState>
  {
    if inputs == [] then []
    else
      Complaints(inputs[..|inputs| - 1])
      + (if CheckNumberInAllowedRange(inputs[|inputs| - 1], MinAllowedNumber, MaxAllowedNumber) == Some(false)
         then [WrongInput] else [])
  }

  /** No line of a prefix of the input makes `int()` raise. */
  predicate NoneRaise(inputs: seq<string>)
  {
    forall k :: 0 <= k < |inputs| ==> !IntRaises(inputs[k])
  }

  /** How a run of the collector ends: the cube is assembled; the input ran
      out first (`input()` then raises `EOFError`); or the last line read
      made `int()` raise `ValueError`. */
  datatype Stop = Assembled | InputEnded | IntRaised

  /** What one run of the collector consumed and printed, and how it ended. */
  datatype Run = Run(consumed: nat, printed: seq<CubeCollectionState>, stop: Stop)

  /** `collect_cube`, reading line `i` of `inputs` on its `i`-th call to
      `input()`. */
  method CollectCube(inputs: seq<string>) returns (run: Run)
    ensures run.consumed <= |inputs|
    ensures run.stop.IntRaised? ==>
              && 0 < run.consumed && IntRaises(inputs[run.consumed - 1])
              && NoneRaise(inputs[..run.consumed - 1])
              && Collected(inputs[..run.consumed - 1]) != Faces
    ensures !run.stop.IntRaised? ==> NoneRaise(inputs[..run.consumed])
    ensures run.stop.Assembled? <==> Collected(inputs[..run.consumed]) == Faces
    ensures run.stop.InputEnded? ==> run.consumed == |inputs|
    ensures run.stop.Assembled? ==> Collected(inputs[..run.consumed - 1]) != Faces
    ensures run.printed == Complaints(inputs[..run.consumed]) + (if run.stop.Assembled? then [End] else [])
  {
    var collectedNumbers: set<int> := {};
    var printed: seq<CubeCollectionState> := [];
    var i := 0;
    while |collectedNumbers| != 6 && i < |inputs|
      invariant i <= |inputs|
      decreases |inputs| - i
      invariant collectedNumbers == Collected(inputs[..i])
      invariant printed == Complaints(inputs[..i])
      invariant 0 < i ==> Collected(inputs[..i - 1]) != Faces
      invariant NoneRaise(inputs[..i])
    {
      var inputNumber := inputs[i];
      assert inputs[..i + 1] == inputs[..i] + [inputNumber];
      ReadOneMore(inputs[..i], inputNumber);
      FullWhenSix(collectedNumbers);
      i := i + 1;
      var check := CheckNumberInAllowedRange(inputNumber, MinAllowedNumber, MaxAllowedNumber);
      if check.None? {
        // `int(input_number)` raises `ValueError`, which escapes
        return Run(i, printed, IntRaised);
      }
      if !check.value {
        printed := printed + [WrongInput];
        continue;
      }
      var number := DecimalValue(inputNumber);
      if number <= 6 {
        collectedNumbers := collectedNumbers + {number};
      }
    }
    FullWhenSix(collectedNumbers);
    if |collectedNumbers| != 6 {
      // `input()` raises `EOFError` once the lines run out
      return Run(i, printed, InputEnded);
    }
    printed := printed + [End];
    run := Run(i, printed, Assembled);
  }

  /** A subset of the faces with six elements is all of them. */
  lemma FullWhenSix(s: set<int>)
    requires s <= Faces
    ensures s == Faces <==> |s| == 6
  {
    FacesCount();
    if |s| == 6 {
      var rest := Faces - s;
      assert Faces == s + rest && s * rest == {};
      assert |rest| == 0;
    }
  }

  lemma FacesCount()
    ensures |Faces| == 6
  {
  }

  /** The collected set only grows as more input is read. */
  lemma {:induction false} CollectedGrows(inputs: seq<string>, k: nat)
    requires k <= |inputs|
    ensures Collected(inputs[..k]) <= Collected(inputs)
  {
    if k < |inputs| {
      assert inputs[..|inputs| - 1][..k] == inputs[..k];
      CollectedGrows(inputs[..|inputs| - 1], k);
    } else {
      assert inputs[..k] == inputs;
    }
  }

  /** Reading one more line: a rejected line adds exactly one complaint and
      leaves the collected numbers alone; an accepted 7 or 8 changes
      nothing; an accepted 1 to 6 is added to the collected numbers; a line
      on which `int()` raises changes neither. */
  lemma ReadOneMore(read: seq<string>, line: string)
    ensures var check := CheckNumberInAllowedRange(line, MinAllowedNumber, MaxAllowedNumber);
            && Collected(read + [line])
               == Collected(read) + (if check == Some(true) && DecimalValue(line) <= 6 then {DecimalValue(line)} else {})
            && Complaints(read + [line]) == Complaints(read) + (if check == Some(false) then [WrongInput] else [])
            && (NoneRaise(read + [line]) <==> NoneRaise(read) && !IntRaises(line))
  {
    assert (read + [line])[..|read|] == read;
  }
}
