/**
 * Model of examples/plushkin_helper/plushkin.py: the command-line front end
 * of the duplicate scanner. `scan` reports what the scanner found;
 * `scan_with_removing` then walks the duplicate sets in order, asks the
 * operator for the number of a file in each, and removes that one file,
 * keeping totals of removed files, errors and bytes cleaned. Console input
 * is the finite sequence of lines the operator types, and whether unlinking
 * a path succeeds is a predicate on the path.
 */
module Plushkin {
  import opened Common
  import opened Entities
  import opened DuplicateScanner

  /** `WRONG_INPUT`, printed for an answer that is not a number. */
  const WrongInput: string := "Enter correct number."

  /** The whitespace `int()` strips from both ends of its argument. */
  predicate IsSpace(c: char)
  {
    c == ' ' || c == '\t' || c == '\n' || c == '\r' || c == '\U{0B}' || c == '\U{0C}'
  }

  predicate IsDigit(c: char)
  {
    '0' <= c <= '9'
  }

  /** The index of the first character at or after `i` that is not
      whitespace, or `|s|` when there is none. */
  function SkipSpaces(s: string, i: nat): (j: nat)
    requires i <= |s|
    ensures i <= j <= |s|
    decreases |s| - i
  {
    if i < |s| && IsSpace(s[i]) then SkipSpaces(s, i + 1) else i
  }

  /** The index just after the last character before `j`, and at or after
      `lo`, that is not whitespace, or `lo` when there is none. */
  function TrimSpaces(s: string, lo: nat, j: nat): (k: nat)
    requires lo <= j <= |s|
    ensures lo <= k <= j
    decreases j
  {
    if lo < j && IsSpace(s[j - 1]) then TrimSpaces(s, lo, j - 1) else j
  }

  /** `s.strip()`: `s` without its leading and trailing whitespace. */
  function Strip(s: string): string
  {
    var lo := SkipSpaces(s, 0);
    s[lo..TrimSpaces(s, lo, |s|)]
  }

  lemma {:induction false} SkipSpacesSkips(s: string, i: nat)
    requires i <= |s|
    ensures var j := SkipSpaces(s, i);
            (forall m :: i <= m < j ==> IsSpace(s[m])) && (j < |s| ==> !IsSpace(s[j]))
    decreases |s| - i
  {
    if i < |s| && IsSpace(s[i]) {
      SkipSpacesSkips(s, i + 1);
    }
  }

  lemma {:induction false} TrimSpacesTrims(s: string, lo: nat, j: nat)
    requires lo <= j <= |s|
    ensures var k := TrimSpaces(s, lo, j);
            (forall m :: k <= m < j ==> IsSpace(s[m])) && (lo < k ==> !IsSpace(s[k - 1]))
    decreases j
  {
    if lo < j && IsSpace(s[j - 1]) {
      TrimSpacesTrims(s, lo, j - 1);
    }
  }

  /** Stripping cuts `s` into leading whitespace, a middle that neither
      starts nor ends with whitespace, and trailing whitespace. */
  lemma StripCuts(s: string)
    ensures var lo := SkipSpaces(s, 0);
            var hi := TrimSpaces(s, lo, |s|);
            && Strip(s) == s[lo..hi]
            && (forall m :: 0 <= m < lo ==> IsSpace(s[m]))
            && (forall m :: hi <= m < |s| ==> IsSpace(s[m]))
            && (Strip(s) != [] ==> !IsSpace(Strip(s)[0]) && !IsSpace(Strip(s)[|Strip(s)| - 1]))
  {
    var lo := SkipSpaces(s, 0);
    SkipSpacesSkips(s, 0);
    TrimSpacesTrims(s, lo, |s|);
  }

  /** Decimal digits in which single underscores may separate digits. */
  predicate DigitsWithUnderscores(s: string)
  {
    if |s| <= 1 then |s| == 1 && IsDigit(s[0])
    else
      && IsDigit(s[|s| - 1])
      && (DigitsWithUnderscores(s[..|s| - 1]) || (s[|s| - 2] == '_' && DigitsWithUnderscores(s[..|s| - 2])))
  }

  /** The value of the digits of `s`, underscores skipped. */
  function DigitsValue(s: string): nat
  {
    if s == [] then 0
    else if IsDigit(s[|s| - 1]) then DigitsValue(s[..|s| - 1]) * 10 + (s[|s| - 1] as int - '0' as int)
    else DigitsValue(s[..|s| - 1])
  }

  /** The number of digits of `s`, underscores not counted. */
  function DigitCount(s: string): (n: nat)
    ensures n <= |s|
  {
    if s == [] then 0
    else DigitCount(s[..|s| - 1]) + if IsDigit(s[|s| - 1]) then 1 else 0
  }

  /** The value of digits grouped by underscores; `None` for other text and
      for more than `MaxStrDigits` digits. */
  function Unsigned(body: string): Option<nat>
  {
    if DigitsWithUnderscores(body) && DigitCount(body) <= MaxStrDigits then Some(DigitsValue(body)) else None
  }

  /** An optional sign followed by digits grouped by underscores, and its
      value; `None` for any other text. */
  function Numeral(t: string): Option<int>
  {
    if t == [] || (t[0] != '-' && t[0] != '+') then
      match Unsigned(t)
      case None => None
      case Some(v) => Some(v)
    else
      match Unsigned(t[1..])
      case None => None
      case Some(v) => Some(if t[0] == '-' then -(v as int) else v)
  }

  /** `int(s)` for ASCII text: a numeral of at most `MaxStrDigits` digits
      with any whitespace around it; `None` where `int` raises `ValueError`. */
  function ParseInt(s: string): Option<int>
  {
    Numeral(Strip(s))
  }

  /** An answer `_get_valid_user_input` accepts: the empty line, or a number
      from 1 to `maxNumber`. */
  predicate Acceptable(line: string, maxNumber: int)
  {
    line == "" || (ParseInt(line).Some? && 0 < ParseInt(line).value <= maxNumber)
  }

  /** The position of the first acceptable line at or after `pos`; `None`
      when the input ends first. */
  function FirstAcceptable(console: seq<string>, pos: nat, maxNumber: int): (r: Option<nat>)
    ensures r.Some? ==> pos <= r.value < |console| && Acceptable(console[r.value], maxNumber)
    decreases |console| - pos
  {
    if pos >= |console| then None
    else if Acceptable(console[pos], maxNumber) then Some(pos)
    else FirstAcceptable(console, pos + 1, maxNumber)
  }

  /** `FirstAcceptable` finds the first acceptable line, and finds nothing
      exactly when no line from `pos` on is acceptable. */
  lemma {:induction false} FirstAcceptableIsFirst(console: seq<string>, pos: nat, maxNumber: int)
    ensures var r := FirstAcceptable(console, pos, maxNumber);
      && (r.Some? ==> forall k :: pos <= k < r.value ==> !Acceptable(console[k], maxNumber))
      && (r.None? <==> forall k :: pos <= k < |console| ==> !Acceptable(console[k], maxNumber))
    decreases |console| - pos
  {
    if pos < |console| && !Acceptable(console[pos], maxNumber) {
      FirstAcceptableIsFirst(console, pos + 1, maxNumber);
    }
  }

  /** How many of `lines[lo..hi]` are not numbers at all (each draws
      `WRONG_INPUT`). */
  function NotNumbers(lines: seq<string>, lo: nat, hi: nat): (n: nat)
    requires lo <= hi <= |lines|
    ensures n <= hi - lo
    decreases hi
  {
    if hi == lo then 0
    else NotNumbers(lines, lo, hi - 1) + if ParseInt(lines[hi - 1]).None? then 1 else 0
  }

  /** `_get_valid_user_input`: reads lines from position `pos` until one is
      empty or a number from 1 to `maxNumber`. A line that is not a number
      draws `WRONG_INPUT`; a number out of range is passed over silently.
      `answer` is `None` when the input ends (`input()` raises `EOFError`). */
  method GetValidUserInput(console: seq<string>, pos: nat, maxNumber: int)
    returns (answer: Option<string>, next: nat, printed: seq<string>)
    requires pos <= |console|
    ensures FirstAcceptable(console, pos, maxNumber).Some? ==>
              var k := FirstAcceptable(console, pos, maxNumber).value;
              answer == Some(console[k]) && next == k + 1 && |printed| == NotNumbers(console, pos, k)
    ensures FirstAcceptable(console, pos, maxNumber).None? ==>
              answer == None && next == |console| && |printed| == NotNumbers(console, pos, next)
    ensures forall i :: 0 <= i < |printed| ==> printed[i] == WrongInput
  {
    next := pos;
    printed := [];
    while true
      invariant pos <= next
      invariant FirstAcceptable(console, pos, maxNumber) == FirstAcceptable(console, next, maxNumber)
      invariant next <= |console|
      invariant |printed| == NotNumbers(console, pos, next)
      invariant forall i :: 0 <= i < |printed| ==> printed[i] == WrongInput
      decreases |console| - next
    {
      if next == |console| {
        return None, next, printed;
      }
      var userInput := console[next];
      next := next + 1;
      if userInput == "" {
        return Some(userInput), next, printed;
      }
      var value := ParseInt(userInput);
      if value.None? {
        printed := printed + [WrongInput];
      } else if 0 < value.value <= maxNumber {
        return Some(userInput), next, printed;
      }
    }
  }

  /** The decimal numeral `str(n)` prints for a natural number `n`. */
  function Show(n: nat): (s: string)
    ensures s != []
  {
    if n < 10 then [DigitChar(n)] else Show(n / 10) + [DigitChar(n % 10)]
  }

  function DigitChar(d: nat): char
    requires d < 10
  {
    ('0' as int + d) as char
  }

  /** The numeral of a natural number is a run of digits with that value. */
  lemma {:induction false} ShowNatural(n: nat)
    ensures IsDigit(Show(n)[0])
    ensures DigitsWithUnderscores(Show(n))
    ensures DigitsValue(Show(n)) == n
    ensures DigitCount(Show(n)) == |Show(n)|
  {
    if n >= 10 {
      ShowNatural(n / 10);
      var s := Show(n / 10);
      assert (s + [DigitChar(n % 10)])[..|s|] == s;
    }
  }

  /** Text with no whitespace at either end is left as it is by stripping. */
  lemma StripsNothing(s: string)
    requires s != [] && !IsSpace(s[0]) && !IsSpace(s[|s| - 1])
    ensures Strip(s) == s
  {
    assert s[0..|s|] == s;
  }

  /** Digits grouped by underscores read back as their value, unless there
      are more of them than `int()` converts. */
  lemma ParseDigits(d: string)
    requires d != [] && IsDigit(d[0]) && DigitsWithUnderscores(d)
    ensures ParseInt(d) == if DigitCount(d) <= MaxStrDigits then Some(DigitsValue(d)) else None
  {
    assert IsDigit(d[|d| - 1]);
    StripsNothing(d);
  }

  /** A run of digits has as many digits as characters. */
  lemma {:induction false} DigitCountOfDigits(s: string)
    requires forall i :: 0 <= i < |s| ==> IsDigit(s[i])
    ensures DigitCount(s) == |s|
  {
    if s != [] {
      DigitCountOfDigits(s[..|s| - 1]);
    }
  }

  /** One digit more than the limit is refused even when all but the last
      are leading zeros, so "0" * 4300 + "1" is answered with WRONG_INPUT
      rather than selecting file 1. */
  lemma TooManyDigitsRefused()
    ensures ParseInt(seq(MaxStrDigits, _ => '0') + "1") == None
  {
    var s := seq(MaxStrDigits, _ => '0') + "1";
    DigitCountOfDigits(s);
    StripsNothing(s);
  }

  /** `int(str(n)) == n`: the number of a file, as the listing prints it,
      reads back as that number, as long as it has at most `MaxStrDigits`
      digits; a longer one is refused like any non-number. */
  lemma ParseShow(n: nat)
    ensures ParseInt(Show(n)) == if |Show(n)| <= MaxStrDigits then Some(n) else None
  {
    ShowNatural(n);
    ParseDigits(Show(n));
  }

  /** What an accepted answer means: skip the set, or the file entered,
      by its 1-based number and its path. */
  datatype Choice = Skip | Pick(number: nat, path: Path)

  /** A choice skips the set or names one of its files. */
  predicate Fits(c: Choice, d: DuplicatesData)
  {
    c.Skip? || (1 <= c.number <= |d.files| && c.path == d.files[c.number - 1].path)
  }

  /** The choice an accepted line stands for in the set `d`: the empty line
      skips it, a number `n` names `d.files[n - 1]`. */
  function ChoiceOf(line: string, d: DuplicatesData): (c: Choice)
    requires Acceptable(line, |d.files|)
    ensures c.Skip? <==> line == ""
    ensures c.Pick? ==> ParseInt(line) == Some(c.number) && Fits(c, d)
  {
    if line == "" then Skip
    else
      var number := ParseInt(line).value;
      Pick(number, d.files[number - 1].path)
  }

  /** The choices read for a run of duplicate sets; `complete` is false
      when the input ended before every set was answered. */
  datatype Answers = Answers(choices: seq<Choice>, complete: bool)

  /** The answers the operator gives to the sets from index `i` on, one per
      set in order, reading the console from position `pos`. */
  function Decide(sets: seq<DuplicatesData>, i: nat, console: seq<string>, pos: nat): (a: Answers)
    requires i <= |sets| && pos <= |console|
    ensures |a.choices| <= |sets| - i && (a.complete <==> |a.choices| == |sets| - i)
    decreases |sets| - i
  {
    if i == |sets| then Answers([], true)
    else
      match FirstAcceptable(console, pos, |sets[i].files|)
      case None => Answers([], false)
      case Some(k) =>
        var rest := Decide(sets, i + 1, console, k + 1);
        Answers([ChoiceOf(console[k], sets[i])] + rest.choices, rest.complete)
  }

  /** One step of `Decide`: the first acceptable line answers set `i`. */
  lemma DecideStep(sets: seq<DuplicatesData>, i: nat, console: seq<string>, pos: nat, k: nat)
    requires i < |sets| && pos <= |console| && FirstAcceptable(console, pos, |sets[i].files|) == Some(k)
    ensures k < |console| && Acceptable(console[k], |sets[i].files|)
    ensures var rest := Decide(sets, i + 1, console, k + 1);
            Decide(sets, i, console, pos) == Answers([ChoiceOf(console[k], sets[i])] + rest.choices, rest.complete)
  {
  }

  /** Every answer skips its set or names one of the set's files. */
  lemma {:induction false} DecideFits(sets: seq<DuplicatesData>, i: nat, console: seq<string>, pos: nat)
    requires i <= |sets| && pos <= |console|
    ensures var a := Decide(sets, i, console, pos);
            forall j :: i <= j < i + |a.choices| ==> Fits(a.choices[j - i], sets[j])
    decreases |sets| - i
  {
    if i < |sets| {
      match FirstAcceptable(console, pos, |sets[i].files|)
      case None =>
      case Some(k) =>
        var c := ChoiceOf(console[k], sets[i]);
        var rest := Decide(sets, i + 1, console, k + 1);
        DecideFits(sets, i + 1, console, k + 1);
        assert Decide(sets, i, console, pos).choices == [c] + rest.choices;
        forall j | i <= j < i + 1 + |rest.choices|
          ensures Fits(([c] + rest.choices)[j - i], sets[j])
        {
          if j > i {
            assert ([c] + rest.choices)[j - i] == rest.choices[j - (i + 1)];
          }
        }
    }
  }

  /** Entering an empty line for every set skips them all. */
  lemma {:induction false} EnterSkipsAll(sets: seq<DuplicatesData>, i: nat, console: seq<string>, pos: nat)
    requires i <= |sets| && pos + |sets| - i <= |console|
    requires forall k :: pos <= k < pos + |sets| - i ==> console[k] == ""
    ensures var a := Decide(sets, i, console, pos);
            a.complete && forall j :: 0 <= j < |a.choices| ==> a.choices[j] == Skip
    decreases |sets| - i
  {
    if i < |sets| {
      assert console[pos] == "";
      assert FirstAcceptable(console, pos, |sets[i].files|) == Some(pos);
      EnterSkipsAll(sets, i + 1, console, pos + 1);
      var rest := Decide(sets, i + 1, console, pos + 1);
      assert Decide(sets, i, console, pos).choices == [Skip] + rest.choices;
    }
  }

  /** The counters `scan_with_removing` reports, and the paths it unlinked. */
  datatype Cleaning = Cleaning(removedFiles: int, errors: int, cleanedSize: int, removed: seq<Path>)

  /** What answering one set `d` does (`_remove_duplicate` and the
      counters): an entered file is unlinked, `unlinkOk` saying whether that
      succeeds; a success counts a removed file and the set's size, a
      failure counts an error. */
  function Apply(before: Cleaning, d: DuplicatesData, c: Choice, unlinkOk: Path -> bool): (after: Cleaning)
    ensures c.Skip? ==> after == before
    ensures c.Pick? ==> after.removedFiles + after.errors == before.removedFiles + before.errors + 1
    ensures c.Pick? ==> (after.removedFiles == before.removedFiles + 1 <==> unlinkOk(c.path))
  {
    match c
    case Skip => before
    case Pick(_, path) =>
      if unlinkOk(path) then
        before.(removedFiles := before.removedFiles + 1, cleanedSize := before.cleanedSize + d.size,
                removed := before.removed + [path])
      else before.(errors := before.errors + 1)
  }

  /** The effect of the choices on the first `|choices|` sets, in order,
      from zero counters. */
  function Clean(sets: seq<DuplicatesData>, choices: seq<Choice>, unlinkOk: Path -> bool): Cleaning
    requires |choices| <= |sets|
  {
    if choices == [] then Cleaning(0, 0, 0, [])
    else
      var n := |choices| - 1;
      Apply(Clean(sets, choices[..n], unlinkOk), sets[n], choices[n], unlinkOk)
  }

  /** How many of the choices enter a file. */
  function Picks(choices: seq<Choice>): nat
  {
    if choices == [] then 0 else Picks(choices[..|choices| - 1]) + if choices[|choices| - 1].Pick? then 1 else 0
  }

  /** Every entered file is either removed or counted as an error, at most
      one per set; the removed-files counter is the number of paths
      unlinked; and skipping every set changes nothing. */
  lemma {:induction false} CleanAccounts(sets: seq<DuplicatesData>, choices: seq<Choice>, unlinkOk: Path -> bool)
    requires |choices| <= |sets|
    ensures var c := Clean(sets, choices, unlinkOk);
            && c.removedFiles + c.errors == Picks(choices) <= |choices|
            && c.removedFiles == |c.removed| && c.errors >= 0
            && (Picks(choices) == 0 ==> c == Cleaning(0, 0, 0, []))
  {
    if choices != [] {
      var n := |choices| - 1;
      CleanAccounts(sets, choices[..n], unlinkOk);
    }
  }

  /** A path is unlinked exactly when it was entered for some set and
      unlinking it succeeds. */
  lemma {:induction false} RemovedExactly(sets: seq<DuplicatesData>, choices: seq<Choice>, unlinkOk: Path -> bool, p: Path)
    requires |choices| <= |sets|
    ensures p in Clean(sets, choices, unlinkOk).removed <==>
              unlinkOk(p) && exists i :: 0 <= i < |choices| && choices[i].Pick? && choices[i].path == p
  {
    if choices != [] {
      var n := |choices| - 1;
      var before := Clean(sets, choices[..n], unlinkOk);
      RemovedExactly(sets, choices[..n], unlinkOk, p);
      assert p in Clean(sets, choices, unlinkOk).removed <==>
               p in before.removed || (choices[n].Pick? && choices[n].path == p && unlinkOk(p));
      if p in before.removed {
        var i :| 0 <= i < n && choices[..n][i].Pick? && choices[..n][i].path == p;
        assert choices[i].Pick? && choices[i].path == p;
      }
      if exists i :: 0 <= i < |choices| && choices[i].Pick? && choices[i].path == p {
        var i :| 0 <= i < |choices| && choices[i].Pick? && choices[i].path == p;
        if i < n {
          assert choices[..n][i].Pick? && choices[..n][i].path == p;
        }
      }
    }
  }

  /** The sum of the sizes of the first `n` sets. */
  function TotalSize(sets: seq<DuplicatesData>, n: nat): int
    requires n <= |sets|
  {
    if n == 0 then 0 else TotalSize(sets, n - 1) + sets[n - 1].size
  }

  /** The sum of `sets[k].size` over the positions k >= i whose answer
      entered a file that was then unlinked. */
  function SucceededSize(sets: seq<DuplicatesData>, choices: seq<Choice>, unlinkOk: Path -> bool, i: nat): int
    requires i <= |choices| <= |sets|
    decreases |choices| - i
  {
    if i == |choices| then 0
    else
      (if choices[i].Pick? && unlinkOk(choices[i].path) then sets[i].size else 0) +
      SucceededSize(sets, choices, unlinkOk, i + 1)
  }

  /** `SucceededSize` of all the choices is that of all but the last, plus
      the last one's contribution. */
  lemma {:induction false} SucceededSizeLast(sets: seq<DuplicatesData>, choices: seq<Choice>, unlinkOk: Path -> bool, i: nat)
    requires 0 < |choices| <= |sets| && i < |choices|
    ensures var n := |choices| - 1;
            SucceededSize(sets, choices, unlinkOk, i) ==
              SucceededSize(sets, choices[..n], unlinkOk, i) +
              (if choices[n].Pick? && unlinkOk(choices[n].path) then sets[n].size else 0)
    decreases |choices| - i
  {
    var n := |choices| - 1;
    if i < n {
      SucceededSizeLast(sets, choices, unlinkOk, i + 1);
      assert choices[..n][i] == choices[i];
    }
  }

  /** The size cleaned is the sum of the sizes of exactly the sets whose
      entered file was unlinked; so it is at most the total size of the
      sets answered, and all of it when a file is entered for every set
      and every unlink succeeds. */
  lemma {:induction false} CleanedSize(sets: seq<DuplicatesData>, choices: seq<Choice>, unlinkOk: Path -> bool)
    requires |choices| <= |sets|
    requires forall i :: 0 <= i < |sets| ==> sets[i].size >= 0
    ensures Clean(sets, choices, unlinkOk).cleanedSize == SucceededSize(sets, choices, unlinkOk, 0)
    ensures 0 <= Clean(sets, choices, unlinkOk).cleanedSize <= TotalSize(sets, |choices|)
    ensures (forall i :: 0 <= i < |choices| ==> choices[i].Pick? && unlinkOk(choices[i].path))
            ==> Clean(sets, choices, unlinkOk).cleanedSize == TotalSize(sets, |choices|)
  {
    if choices != [] {
      var n := |choices| - 1;
      CleanedSize(sets, choices[..n], unlinkOk);
      SucceededSizeLast(sets, choices, unlinkOk, 0);
      if forall i :: 0 <= i < |choices| ==> choices[i].Pick? && unlinkOk(choices[i].path) {
        assert forall i :: 0 <= i < n ==> choices[..n][i].Pick? && unlinkOk(choices[..n][i].path);
      }
    }
  }

  /** The counters and unlinked paths after the whole dialogue, and whether
      the input ended early: the answers first, then their effect. */
  function Outcome(sets: seq<DuplicatesData>, console: seq<string>, unlinkOk: Path -> bool): (Cleaning, bool)
  {
    var a := Decide(sets, 0, console, 0);
    (Clean(sets, a.choices, unlinkOk), !a.complete)
  }

  /** Only files listed in the duplicate sets are ever unlinked. */
  lemma RemovedAreListed(sets: seq<DuplicatesData>, console: seq<string>, unlinkOk: Path -> bool, p: Path)
    requires p in Outcome(sets, console, unlinkOk).0.removed
    ensures unlinkOk(p)
    ensures exists i, j :: 0 <= i < |sets| && 0 <= j < |sets[i].files| && sets[i].files[j].path == p
  {
    var a := Decide(sets, 0, console, 0);
    RemovedExactly(sets, a.choices, unlinkOk, p);
    DecideFits(sets, 0, console, 0);
    var i :| 0 <= i < |a.choices| && a.choices[i].Pick? && a.choices[i].path == p;
    assert Fits(a.choices[i - 0], sets[i]);
    assert sets[i].files[a.choices[i].number - 1].path == p;
  }

  /** The dialogue as `scan_with_removing` runs it, one set at a time from
      set `i`, console position `pos` and the counters `c` so far. */
  function Dialogue(sets: seq<DuplicatesData>, console: seq<string>, unlinkOk: Path -> bool, i: nat, pos: nat,
                    c: Cleaning): (Cleaning, bool)
    requires i <= |sets| && pos <= |console|
    decreases |sets| - i
  {
    if i == |sets| then (c, false)
    else
      match FirstAcceptable(console, pos, |sets[i].files|)
      case None => (c, true)
      case Some(k) =>
        Dialogue(sets, console, unlinkOk, i + 1, k + 1, Apply(c, sets[i], ChoiceOf(console[k], sets[i]), unlinkOk))
  }

  /** One step of `Dialogue`: the first acceptable line is applied to set `i`. */
  lemma DialogueStep(sets: seq<DuplicatesData>, console: seq<string>, unlinkOk: Path -> bool, i: nat, pos: nat,
                     c: Cleaning, k: nat)
    requires i < |sets| && pos <= |console| && FirstAcceptable(console, pos, |sets[i].files|) == Some(k)
    ensures k < |console| && Acceptable(console[k], |sets[i].files|)
    ensures Dialogue(sets, console, unlinkOk, i, pos, c) ==
            Dialogue(sets, console, unlinkOk, i + 1, k + 1, Apply(c, sets[i], ChoiceOf(console[k], sets[i]), unlinkOk))
  {
  }

  /** One step of `Dialogue` in terms of the line read and the position
      after it. */
  lemma DialogueAnswer(sets: seq<DuplicatesData>, console: seq<string>, unlinkOk: Path -> bool, i: nat, pos: nat,
                       c: Cleaning, line: string, next: nat, after: Cleaning)
    requires i < |sets| && pos <= |console| && FirstAcceptable(console, pos, |sets[i].files|).Some?
    requires var k := FirstAcceptable(console, pos, |sets[i].files|).value;
             line == console[k] && next == k + 1
    requires Acceptable(line, |sets[i].files|) && after == Apply(c, sets[i], ChoiceOf(line, sets[i]), unlinkOk)
    ensures next <= |console|
    ensures Dialogue(sets, console, unlinkOk, i, pos, c) == Dialogue(sets, console, unlinkOk, i + 1, next, after)
  {
    DialogueStep(sets, console, unlinkOk, i, pos, c, next - 1);
  }

  /** When no acceptable line is left for set `i`, the answers and the
      dialogue stop there. */
  lemma DialogueStop(sets: seq<DuplicatesData>, console: seq<string>, unlinkOk: Path -> bool, i: nat, pos: nat,
                     c: Cleaning)
    requires i < |sets| && pos <= |console| && FirstAcceptable(console, pos, |sets[i].files|).None?
    ensures Decide(sets, i, console, pos) == Answers([], false)
    ensures Dialogue(sets, console, unlinkOk, i, pos, c) == (c, true)
  {
  }

  /** Cleaning one more set applies its choice to what came before. */
  lemma CleanSnoc(sets: seq<DuplicatesData>, chosen: seq<Choice>, unlinkOk: Path -> bool, c: Choice)
    requires |chosen| < |sets|
    ensures Clean(sets, chosen + [c], unlinkOk) == Apply(Clean(sets, chosen, unlinkOk), sets[|chosen|], c, unlinkOk)
  {
    assert (chosen + [c])[..|chosen|] == chosen;
  }

  /** The choices `cs` applied in order to the sets from index `i` on,
      starting from the counters `c`. */
  function Continue(c: Cleaning, sets: seq<DuplicatesData>, i: nat, cs: seq<Choice>, unlinkOk: Path -> bool): Cleaning
    requires i + |cs| <= |sets|
    decreases |cs|
  {
    if cs == [] then c else Continue(Apply(c, sets[i], cs[0], unlinkOk), sets, i + 1, cs[1..], unlinkOk)
  }

  /** Continuing a cleaning with more choices is cleaning with all of them. */
  lemma {:induction false} ContinueClean(sets: seq<DuplicatesData>, chosen: seq<Choice>, cs: seq<Choice>,
                                         unlinkOk: Path -> bool)
    requires |chosen| + |cs| <= |sets|
    ensures Continue(Clean(sets, chosen, unlinkOk), sets, |chosen|, cs, unlinkOk) == Clean(sets, chosen + cs, unlinkOk)
    decreases |cs|
  {
    if cs != [] {
      CleanSnoc(sets, chosen, unlinkOk, cs[0]);
      ContinueClean(sets, chosen + [cs[0]], cs[1..], unlinkOk);
      assert chosen + [cs[0]] + cs[1..] == chosen + cs;
    } else {
      assert chosen + cs == chosen;
    }
  }

  /** Running the dialogue set by set from counters `c` has the effect of
      its answers applied in order. */
  lemma {:induction false} DialogueMatches(sets: seq<DuplicatesData>, console: seq<string>, unlinkOk: Path -> bool,
                                           i: nat, pos: nat, c: Cleaning)
    requires i <= |sets| && pos <= |console|
    ensures var a := Decide(sets, i, console, pos);
            Dialogue(sets, console, unlinkOk, i, pos, c) == (Continue(c, sets, i, a.choices, unlinkOk), !a.complete)
    decreases |sets| - i
  {
    if i < |sets| {
      match FirstAcceptable(console, pos, |sets[i].files|)
      case None =>
        DialogueStop(sets, console, unlinkOk, i, pos, c);
      case Some(k) =>
        var choice := ChoiceOf(console[k], sets[i]);
        var after := Apply(c, sets[i], choice, unlinkOk);
        DialogueStep(sets, console, unlinkOk, i, pos, c, k);
        DecideStep(sets, i, console, pos, k);
        DialogueMatches(sets, console, unlinkOk, i + 1, k + 1, after);
        var rest := Decide(sets, i + 1, console, k + 1);
        assert ([choice] + rest.choices)[1..] == rest.choices;
    }
  }

  /** The outcome is what the dialogue ends with from zero counters. */
  lemma OutcomeIsDialogue(sets: seq<DuplicatesData>, console: seq<string>, unlinkOk: Path -> bool)
    ensures Outcome(sets, console, unlinkOk) == Dialogue(sets, console, unlinkOk, 0, 0, Cleaning(0, 0, 0, []))
  {
    var a := Decide(sets, 0, console, 0);
    DialogueMatches(sets, console, unlinkOk, 0, 0, Cleaning(0, 0, 0, []));
    ContinueClean(sets, [], a.choices, unlinkOk);
    assert [] + a.choices == a.choices;
  }

  /** What one run of `scan_with_removing` ends with: the scan report, the
      counters and unlinked paths so far, and whether the input ended before
      every set was answered (`input()` then raises `EOFError` and the
      deleting report is not printed). */
  datatype Session = Session(report: ScanReport, cleaning: Cleaning, endOfInput: bool)

  /** The removing loop of `scan_with_removing`: for each duplicate set in
      order it reads a valid answer; an empty answer skips the set, a number
      unlinks that file of the set and updates the counters. It ends early,
      with `endOfInput`, when the console runs out. */
  method RemoveDuplicates(sets: seq<DuplicatesData>, console: seq<string>, unlinkOk: Path -> bool)
    returns (cleaning: Cleaning, endOfInput: bool)
    ensures (cleaning, endOfInput) == Outcome(sets, console, unlinkOk)
  {
    var removedFiles, errors, cleanedSize := 0, 0, 0;
    var removed: seq<Path> := [];
    var pos: nat := 0;
    OutcomeIsDialogue(sets, console, unlinkOk);
    ghost var whole := Dialogue(sets, console, unlinkOk, 0, 0, Cleaning(0, 0, 0, []));
    for i := 0 to |sets|
      invariant pos <= |console|
      invariant whole == Dialogue(sets, console, unlinkOk, i, pos, Cleaning(removedFiles, errors, cleanedSize, removed))
    {
      var duplicate := sets[i];
      var maxNumber := |duplicate.files|;
      var userInput, next, _ := GetValidUserInput(console, pos, maxNumber);
      ghost var before := Cleaning(removedFiles, errors, cleanedSize, removed);
      if userInput.None? {
        DialogueStop(sets, console, unlinkOk, i, pos, before);
        return Cleaning(removedFiles, errors, cleanedSize, removed), true;
      }
      ghost var previous := pos;
      pos := next;
      if userInput.value == "" {
        DialogueAnswer(sets, console, unlinkOk, i, previous, before, userInput.value, next, before);
        continue;
      }
      PickStep(before, duplicate, userInput.value, unlinkOk);
      var fileIndex := ParseInt(userInput.value).value - 1;
      var pathToFile := duplicate.files[fileIndex].path;
      if unlinkOk(pathToFile) {
        removedFiles := removedFiles + 1;
        cleanedSize := cleanedSize + duplicate.size;
        removed := removed + [pathToFile];
      } else {
        errors := errors + 1;
      }
      DialogueAnswer(sets, console, unlinkOk, i, previous, before, userInput.value, next,
                     Cleaning(removedFiles, errors, cleanedSize, removed));
    }
    return Cleaning(removedFiles, errors, cleanedSize, removed), false;
  }

  /** What entering a file number does to the counters. */
  lemma PickStep(before: Cleaning, d: DuplicatesData, line: string, unlinkOk: Path -> bool)
    requires Acceptable(line, |d.files|) && line != ""
    ensures var n := ParseInt(line).value;
            && 1 <= n <= |d.files|
            && var path := d.files[n - 1].path;
               Apply(before, d, ChoiceOf(line, d), unlinkOk) ==
                 if unlinkOk(path) then
                   Cleaning(before.removedFiles + 1, before.errors, before.cleanedSize + d.size, before.removed + [path])
                 else
                   Cleaning(before.removedFiles, before.errors + 1, before.cleanedSize, before.removed)
  {
  }

  /** `scan_with_removing`: scans `root`, then runs the removing dialogue
      over the duplicate sets found. `None` when the scan raises. */
  method ScanWithRemoving(path: Path, root: Entry, hash: seq<byte> -> string, console: seq<string>,
                          unlinkOk: Path -> bool)
    returns (r: Option<Session>)
    ensures r.None? <==> !(root.Directory? && AllOk(root.entries))
    ensures r.Some? ==> r.value.report == ExpectedReport(path, root.entries, hash)
    ensures r.Some? ==> (r.value.cleaning, r.value.endOfInput) == Outcome(r.value.report.duplicates, console, unlinkOk)
  {
    var ok, scanResult := ScanDir(path, root, hash);
    if !ok {
      return None;
    }
    var report := scanResult.Report();
    var cleaning, endOfInput := RemoveDuplicates(report.duplicates, console, unlinkOk);
    return Some(Session(report, cleaning, endOfInput));
  }

  /** `scan`: the report of `scan_dir`, which is then only printed. */
  method Scan(path: Path, root: Entry, hash: seq<byte> -> string) returns (r: Option<ScanReport>)
    ensures r.None? <==> !(root.Directory? && AllOk(root.entries))
    ensures r.Some? ==> r.value == ExpectedReport(path, root.entries, hash)
  {
    var ok, scanResult := ScanDir(path, root, hash);
    if !ok {
      return None;
    }
    return Some(scanResult.Report());
  }

  /** The directory tree after the files at the `removed` paths are
      unlinked: those regular files are gone, everything else stays. */
  function Pruned(entries: seq<Entry>, dir: Path, removed: seq<Path>): seq<Entry>
    decreases entries, 1
  {
    if entries == [] then [] else Pruned(entries[..|entries| - 1], dir, removed) + PrunedEntry(entries[|entries| - 1], dir, removed)
  }

  /** What is left of one entry of directory `dir` after the unlinking. */
  function PrunedEntry(e: Entry, dir: Path, removed: seq<Path>): seq<Entry>
    decreases e, 0
  {
    match e
    case RegularFile(name, _, _) => if dir + [name] in removed then [] else [e]
    case Directory(name, children) => [Directory(name, Pruned(children, dir + [name], removed))]
    case _ => [e]
  }

  /** The found files whose path was not unlinked, in order. */
  function Kept(fs: seq<Found>, removed: seq<Path>): seq<Found>
  {
    if fs == [] then []
    else Kept(fs[..|fs| - 1], removed) + if fs[|fs| - 1].path in removed then [] else [fs[|fs| - 1]]
  }

  lemma {:induction false} KeptAppend(a: seq<Found>, b: seq<Found>, removed: seq<Path>)
    ensures Kept(a + b, removed) == Kept(a, removed) + Kept(b, removed)
    decreases |b|
  {
    if b == [] {
      assert a + b == a;
    } else {
      var n := |b| - 1;
      assert (a + b)[..|a + b| - 1] == a + b[..n];
      KeptAppend(a, b[..n], removed);
    }
  }

  /** The scan functions of a listing split over a concatenation. */
  lemma {:induction false} FilesAppend(a: seq<Entry>, b: seq<Entry>, dir: Path)
    ensures FilesIn(a + b, dir) == FilesIn(a, dir) + FilesIn(b, dir)
    decreases |b|
  {
    if b == [] {
      assert a + b == a;
    } else {
      var n := |b| - 1;
      assert (a + b)[..|a + b| - 1] == a + b[..n];
      FilesAppend(a, b[..n], dir);
    }
  }

  lemma {:induction false} DirsAppend(a: seq<Entry>, b: seq<Entry>)
    ensures DirsIn(a + b) == DirsIn(a) + DirsIn(b)
    decreases |b|
  {
    if b == [] {
      assert a + b == a;
    } else {
      var n := |b| - 1;
      assert (a + b)[..|a + b| - 1] == a + b[..n];
      DirsAppend(a, b[..n]);
    }
  }

  lemma {:induction false} AllOkAppend(a: seq<Entry>, b: seq<Entry>)
    ensures AllOk(a + b) <==> AllOk(a) && AllOk(b)
    decreases |b|
  {
    if b == [] {
      assert a + b == a;
    } else {
      var n := |b| - 1;
      assert (a + b)[..|a + b| - 1] == a + b[..n];
      AllOkAppend(a, b[..n]);
    }
  }

  /** After unlinking, a rescan finds exactly the files that were not
      unlinked, the same directories, and still raises nowhere. */
  lemma {:induction false} PrunedScan(entries: seq<Entry>, dir: Path, removed: seq<Path>)
    ensures FilesIn(Pruned(entries, dir, removed), dir) == Kept(FilesIn(entries, dir), removed)
    ensures DirsIn(Pruned(entries, dir, removed)) == DirsIn(entries)
    ensures AllOk(entries) ==> AllOk(Pruned(entries, dir, removed))
    decreases entries, 2
  {
    if entries != [] {
      var n := |entries| - 1;
      PrunedScan(entries[..n], dir, removed);
      PrunedEntryScan(entries[n], dir, removed);
      PrunedFilesSnoc(entries, dir, removed);
      PrunedDirsSnoc(entries, dir, removed);
      PrunedOkSnoc(entries, dir, removed);
    }
  }

  /** The steps of `PrunedScan` from a listing without its last entry to the
      whole listing, one scan function at a time. */
  lemma PrunedFilesSnoc(entries: seq<Entry>, dir: Path, removed: seq<Path>)
    requires entries != []
    requires var n := |entries| - 1;
             FilesIn(Pruned(entries[..n], dir, removed), dir) == Kept(FilesIn(entries[..n], dir), removed)
    requires var n := |entries| - 1;
             FilesIn(PrunedEntry(entries[n], dir, removed), dir) == Kept(FilesIn([entries[n]], dir), removed)
    ensures FilesIn(Pruned(entries, dir, removed), dir) == Kept(FilesIn(entries, dir), removed)
  {
    var n := |entries| - 1;
    FilesAppend(Pruned(entries[..n], dir, removed), PrunedEntry(entries[n], dir, removed), dir);
    FilesLast(entries, dir);
    KeptAppend(FilesIn(entries[..n], dir), FilesIn([entries[n]], dir), removed);
  }

  lemma PrunedDirsSnoc(entries: seq<Entry>, dir: Path, removed: seq<Path>)
    requires entries != []
    requires var n := |entries| - 1;
             DirsIn(Pruned(entries[..n], dir, removed)) == DirsIn(entries[..n])
    requires var n := |entries| - 1;
             DirsIn(PrunedEntry(entries[n], dir, removed)) == DirsIn([entries[n]])
    ensures DirsIn(Pruned(entries, dir, removed)) == DirsIn(entries)
  {
    var n := |entries| - 1;
    DirsAppend(Pruned(entries[..n], dir, removed), PrunedEntry(entries[n], dir, removed));
    DirsLast(entries);
  }

  /** The scan functions of a listing, split before its last entry. */
  lemma FilesLast(entries: seq<Entry>, dir: Path)
    requires entries != []
    ensures FilesIn(entries, dir) == FilesIn(entries[..|entries| - 1], dir) + FilesIn([entries[|entries| - 1]], dir)
  {
    assert [entries[|entries| - 1]][..0] == [];
  }

  lemma DirsLast(entries: seq<Entry>)
    requires entries != []
    ensures DirsIn(entries) == DirsIn(entries[..|entries| - 1]) + DirsIn([entries[|entries| - 1]])
  {
    assert [entries[|entries| - 1]][..0] == [];
  }

  lemma OkLast(entries: seq<Entry>)
    requires entries != []
    ensures AllOk(entries) <==> AllOk(entries[..|entries| - 1]) && AllOk([entries[|entries| - 1]])
  {
    assert [entries[|entries| - 1]][..0] == [];
  }

  lemma PrunedOkSnoc(entries: seq<Entry>, dir: Path, removed: seq<Path>)
    requires entries != []
    requires var n := |entries| - 1;
             AllOk(entries[..n]) ==> AllOk(Pruned(entries[..n], dir, removed))
    requires var n := |entries| - 1;
             AllOk([entries[n]]) ==> AllOk(PrunedEntry(entries[n], dir, removed))
    ensures AllOk(entries) ==> AllOk(Pruned(entries, dir, removed))
  {
    var n := |entries| - 1;
    AllOkAppend(Pruned(entries[..n], dir, removed), PrunedEntry(entries[n], dir, removed));
    OkLast(entries);
  }

  lemma {:induction false} PrunedEntryScan(e: Entry, dir: Path, removed: seq<Path>)
    ensures FilesIn(PrunedEntry(e, dir, removed), dir) == Kept(FilesIn([e], dir), removed)
    ensures DirsIn(PrunedEntry(e, dir, removed)) == DirsIn([e])
    ensures AllOk([e]) ==> AllOk(PrunedEntry(e, dir, removed))
    decreases e, 1
  {
    if e.Directory? {
      PrunedDirScan(e, dir, removed);
    } else if e.RegularFile? {
      assert [e][..0] == [];
      assert [Found(dir + [e.name], e.content, e.created)][..0] == [];
    } else {
      assert [e][..0] == [];
    }
  }

  lemma {:induction false} PrunedDirScan(e: Entry, dir: Path, removed: seq<Path>)
    requires e.Directory?
    ensures FilesIn(PrunedEntry(e, dir, removed), dir) == Kept(FilesIn([e], dir), removed)
    ensures DirsIn(PrunedEntry(e, dir, removed)) == DirsIn([e])
    ensures AllOk([e]) ==> AllOk(PrunedEntry(e, dir, removed))
    decreases e, 0
  {
    var sub := dir + [e.name];
    var pruned := Directory(e.name, Pruned(e.entries, sub, removed));
    PrunedScan(e.entries, sub, removed);
    assert [e][..0] == [] && [pruned][..0] == [];
    assert FilesIn([pruned], dir) == FilesIn(pruned.entries, sub);
    assert FilesIn([e], dir) == FilesIn(e.entries, sub);
  }

  /** The removing scenario on the `two_duplicates` layout: the operator
      enters 1 for the only duplicate set and the unlink succeeds, so the
      first copy is removed and 9 bytes are cleaned; a rescan then finds 2
      files in 4 folders and no duplicates. */
  lemma RemovingTwoDuplicates(root: Path, sameText: seq<byte>, sameFileName: seq<byte>, created: Date,
                              hash: seq<byte> -> string)
    requires |sameText| == 9 && hash(sameText) != hash(sameFileName)
    ensures var entries := TwoDuplicates(sameText, sameFileName, created);
            var out := Outcome(ExpectedReport(root, entries, hash).duplicates, ["1"], _ => true);
            && out == (Cleaning(1, 0, 9, [root + ["path", "file 1.txt"]]), false)
            && ExpectedReport(root, Pruned(entries, root, out.0.removed), hash) == ScanReport(root, 2, 4, 0, [])
  {
    var dir := root + ["path"];
    var p1 := dir + ["file 1.txt"];
    assert p1 == root + ["path", "file 1.txt"];
    var sets := [DuplicatesData([File(p1, Some(created)), File(dir + ["file 2.txt"], Some(created))], 9)];
    TwoDuplicatesReport(root, sameText, sameFileName, created, hash);
    assert ExpectedReport(root, TwoDuplicates(sameText, sameFileName, created), hash).duplicates == sets;
    EnterOne(p1, dir + ["file 2.txt"], created);
    assert Outcome(sets, ["1"], _ => true).0.removed == [p1];
    RescanTwoDuplicates(root, sameText, sameFileName, created, hash);
  }

  /** Entering 1 for a single set of two files removes the first one. */
  lemma EnterOne(p1: Path, p2: Path, created: Date)
    ensures Outcome([DuplicatesData([File(p1, Some(created)), File(p2, Some(created))], 9)], ["1"], _ => true) ==
              (Cleaning(1, 0, 9, [p1]), false)
  {
    var sets := [DuplicatesData([File(p1, Some(created)), File(p2, Some(created))], 9)];
    ParseShow(1);
    assert Show(1) == "1";
    assert FirstAcceptable(["1"], 0, 2) == Some(0);
    assert ChoiceOf("1", sets[0]) == Pick(1, p1);
    DecideStep(sets, 0, ["1"], 0, 0);
    assert Decide(sets, 1, ["1"], 1) == Answers([], true);
    var a := Decide(sets, 0, ["1"], 0);
    assert a == Answers([Pick(1, p1)], true);
    assert [Pick(1, p1)][..0] == [];
    var ok: Path -> bool := _ => true;
    assert Clean(sets, [], ok) == Cleaning(0, 0, 0, []);
    assert Apply(Cleaning(0, 0, 0, []), sets[0], Pick(1, p1), ok) == Cleaning(1, 0, 9, [p1]);
    assert Clean(sets, a.choices, ok) == Cleaning(1, 0, 9, [p1]);
  }

  /** Rescanning `two_duplicates` once its first copy is unlinked. */
  lemma RescanTwoDuplicates(root: Path, sameText: seq<byte>, sameFileName: seq<byte>, created: Date,
                            hash: seq<byte> -> string)
    requires hash(sameText) != hash(sameFileName)
    ensures ExpectedReport(root, Pruned(TwoDuplicates(sameText, sameFileName, created), root, [root + ["path", "file 1.txt"]]),
                           hash) == ScanReport(root, 2, 4, 0, [])
  {
    var entries := TwoDuplicates(sameText, sameFileName, created);
    var dir := root + ["path"];
    var p1, p2, p3 := dir + ["file 1.txt"], dir + ["file 2.txt"], dir + ["dir", "file 1.txt"];
    assert p1 == root + ["path", "file 1.txt"];
    var f1, f2, f3 := Found(p1, sameText, created), Found(p2, sameText, created), Found(p3, sameFileName, created);
    TwoDuplicatesFiles(root, sameText, sameFileName, created);
    PrunedScan(entries, root, [p1]);
    assert p2 != p1 && p3 != p1 by {
      assert p2[|root| + 1][5] != p1[|root| + 1][5];
      assert |p3| != |p1|;
    }
    KeepLastTwo(f1, f2, f3);
    var pruned := Pruned(entries, root, [p1]);
    assert FilesIn(pruned, root) == [f2, f3];
    assert DirsIn(pruned) == 3;
    TwoSingletons(f2, f3, hash);
  }

  /** Two files with different digests form two one-file groups, so no
      duplicate is found. */
  lemma TwoSingletons(f2: Found, f3: Found, hash: seq<byte> -> string)
    requires hash(f2.content) != hash(f3.content)
    ensures var g := AddAll(Groups([], map[]), [f2, f3], hash);
            DuplicatesFound(g.keys, g.lists, |g.keys|) == 0 && DuplicateSets(g.keys, g.lists, |g.keys|) == []
  {
    var b, c := hash(f2.content), hash(f3.content);
    assert [f2, f3][..1] == [f2] && [f2][..0] == [];
    assert AddAll(Groups([], map[]), [f2], hash) == Groups([b], map[b := [f2]]);
    assert AddAll(Groups([], map[]), [f2, f3], hash) == Groups([b, c], map[b := [f2], c := [f3]]);
    var lists := map[b := [f2], c := [f3]];
    assert DuplicatesFound([b, c], lists, 1) == 0;
    assert DuplicateSets([b, c], lists, 1) == [];
  }

  lemma KeepLastTwo(f1: Found, f2: Found, f3: Found)
    requires f2.path != f1.path && f3.path != f1.path
    ensures Kept([f1, f2, f3], [f1.path]) == [f2, f3]
  {
    var fs := [f1, f2, f3];
    assert fs[..2] == [f1, f2] && [f1, f2][..1] == [f1] && [f1][..0] == [];
    assert Kept([f1], [f1.path]) == [];
    assert Kept([f1, f2], [f1.path]) == [f2];
  }
}
