/**
 The program upload loop (`shared/focas/programs.py`): text comes from the control in chunks, with "no data
 yet" replies in between, until a chunk ends in `%`.

 A control is a function giving the reply to its n-th upload call: return code, the length it reports and
 the transfer buffer as it left it.
 */
module ProgramUpload {
  import opened Wrappers

  type Byte = b: int | 0 <= b < 256

  /** The transfer buffer; its size is fixed. */
  type Buffer = b: seq<Byte> | |b| == CHUNK_BYTES witness seq(CHUNK_BYTES, i => 0)

  datatype Reply = Reply(rc: int, length: int, buffer: Buffer)

  type Control = nat -> Reply

  const EW_BUFFER := 10
  const CHUNK_BYTES := 1440
  const MAX_BYTES := 2000000
  const MAX_CALLS := 5000
  const MAX_EMPTY_STREAK := 250
  const PERCENT: Byte := 37

  datatype Outcome =
    | Program(text: seq<Byte>)
    | BadNumber          // ValueError
    | Rejected(rc: int)  // FocasError
    | NeverYielded       // TimeoutError
    | TooLong            // ValueError
    | CallCap            // TimeoutError

  // ---------------------------------------------------------------- one reply

  /** `buf.raw[:length]`, negative lengths counting from the end */
  function Got(r: Reply): seq<Byte> {
    if r.length < 0 then r.buffer[..if |r.buffer| + r.length > 0 then |r.buffer| + r.length else 0]
    else if r.length < |r.buffer| then r.buffer[..r.length]
    else r.buffer
  }

  predicate IsSpace(b: Byte) { b == 32 || 9 <= b <= 13 }

  function StripRight(s: seq<Byte>): seq<Byte> {
    if s != [] && IsSpace(s[|s| - 1]) then StripRight(s[..|s| - 1]) else s
  }

  /** `got.rstrip().endswith(b"%")` */
  predicate EndsInPercent(s: seq<Byte>) {
    var stripped := StripRight(s);
    stripped != [] && stripped[|stripped| - 1] == PERCENT
  }

  /** Tab, line feed, vertical tab, form feed, carriage return or blank. */
  ghost predicate White(b: Byte) { b in {9, 10, 11, 12, 13, 32} }

  ghost predicate PercentThenSpace(s: seq<Byte>, i: nat) {
    i < |s| && s[i] == 37 && forall j | i < j < |s| :: White(s[j])
  }

  /** What a call brings: the reported number of bytes from the front of the 1440, all of them for a greater
      number, and for a negative one all but so many. */
  lemma GotIs(r: Reply)
    ensures 0 <= r.length <= 1440 ==> |Got(r)| == r.length
    ensures r.length > 1440 ==> |Got(r)| == 1440
    ensures -1440 <= r.length < 0 ==> |Got(r)| == 1440 + r.length
    ensures r.length < -1440 ==> Got(r) == []
    ensures Got(r) <= r.buffer
  {
  }

  /** That is: a `%` with nothing but white space after it. */
  lemma {:induction false} EndsInPercentIff(s: seq<Byte>)
    ensures EndsInPercent(s) <==> exists i: nat :: PercentThenSpace(s, i)
  {
    if s != [] && IsSpace(s[|s| - 1]) {
      var front := s[..|s| - 1];
      EndsInPercentIff(front);
      assert EndsInPercent(s) == EndsInPercent(front);
      hide PercentThenSpace, EndsInPercent;
      if EndsInPercent(front) {
        var i: nat :| PercentThenSpace(front, i);
        SpaceAppended(s, i);
      }
      forall i: nat ensures PercentThenSpace(s, i) ==> PercentThenSpace(front, i) {
        SpaceAppended(s, i);
      }
    } else if s != [] && s[|s| - 1] == PERCENT {
      assert PercentThenSpace(s, |s| - 1);
    }
  }

  lemma SpaceAppended(s: seq<Byte>, i: nat)
    requires s != [] && IsSpace(s[|s| - 1])
    ensures PercentThenSpace(s, i) <==> PercentThenSpace(s[..|s| - 1], i)
  {
    var front := s[..|s| - 1];
    assert forall j | 0 <= j < |front| :: front[j] == s[j];
  }

  // ---------------------------------------------------------------- the calls so far

  /** The text of the first `n` calls. */
  function TextOf(control: Control, n: nat): seq<Byte> {
    if n == 0 then [] else
    TextOf(control, n - 1) + if control(n - 1).rc == 0 then Got(control(n - 1)) else []
  }

  /** How many of the latest of the first `n` calls had no data. */
  function Streak(control: Control, n: nat): nat {
    if n > 0 && control(n - 1).rc == EW_BUFFER then Streak(control, n - 1) + 1 else 0
  }

  /** The upload is over with call `n`, one way or the other. */
  function Verdict(control: Control, n: nat): Option<Outcome> {
    var r := control(n);
    if r.rc == EW_BUFFER then (if Streak(control, n + 1) > MAX_EMPTY_STREAK then Some(NeverYielded) else None)
    else if r.rc != 0 then Some(Rejected(r.rc))
    else if |TextOf(control, n + 1)| > MAX_BYTES then Some(TooLong)
    else if |TextOf(control, n + 1)| > 1 && EndsInPercent(Got(r)) then Some(Program(TextOf(control, n + 1)))
    else None
  }

  lemma {:induction false} StreakAtLeast(control: Control, n: nat, k: nat)
    ensures Streak(control, n) >= k <==> k <= n && forall i | n - k <= i < n :: control(i).rc == 10
  {
    if n > 0 && k > 0 { StreakAtLeast(control, n - 1, k - 1); }
  }

  /** Call `n` and the 250 before it all had no data. */
  ghost predicate Starved(control: Control, n: nat) {
    n >= 250 && forall i | n - 250 <= i <= n :: control(i).rc == 10
  }

  /** When a call decides, and how: by 251 empty replies in a row, by a refusal, by more than 2,000,000 bytes, or
      by a chunk that ends in `%` once more than one byte is in hand. */
  lemma VerdictIff(control: Control, n: nat)
    ensures var r, text := control(n), TextOf(control, n + 1);
            && (Verdict(control, n) == Some(NeverYielded) <==> Starved(control, n))
            && (forall rc :: Verdict(control, n) == Some(Rejected(rc)) <==> r.rc == rc && rc != 0 && rc != 10)
            && (Verdict(control, n) == Some(TooLong) <==> r.rc == 0 && |text| > 2000000)
            && (forall t :: Verdict(control, n) == Some(Program(t)) <==>
                  && r.rc == 0 && t == text && 1 < |text| <= 2000000
                  && exists i: nat :: PercentThenSpace(Got(r), i))
  {
    StreakAtLeast(control, n + 1, 251);
    EndsInPercentIff(Got(control(n)));
    hide Streak, TextOf, EndsInPercent;
  }

  /** The call that ends an upload: the first that decides, or the 5000th if none does. */
  lemma DecidedIff(control: Control, calls: nat, outcome: Outcome)
    ensures DecidedBy(control, calls, outcome) <==>
            && 0 < calls <= 5000
            && (forall i: nat | i < calls - 1 :: Verdict(control, i).None?)
            && (if calls == 5000 && Verdict(control, calls - 1).None? then outcome == CallCap
                else Verdict(control, calls - 1) == Some(outcome))
  {
    hide Verdict;
    if DecidedBy(control, calls, outcome) && calls < 5000 {
      assert Verdict(control, calls - 1) == Some(outcome);
    }
  }

  ghost predicate Undecided(control: Control, n: nat) {
    forall i: nat | i < n :: Verdict(control, i).None?
  }

  /** The control was asked `calls` times and the last of them decided. */
  ghost predicate DecidedBy(control: Control, calls: nat, outcome: Outcome) {
    && 0 < calls <= MAX_CALLS && Undecided(control, calls - 1)
    && (Verdict(control, calls - 1) == Some(outcome)
        || (calls == MAX_CALLS && Verdict(control, calls - 1).None? && outcome == CallCap))
  }

  /** `calls` counts the upload calls, `ends` the calls that end the upload. */
  method ReadProgramText(control: Control, startRc: int, number: int)
    returns (outcome: Outcome, calls: nat, ends: nat)
    ensures number <= 0 ==> outcome == BadNumber && calls == 0 && ends == 0
    ensures number > 0 && startRc != 0 ==> outcome == Rejected(startRc) && calls == 0 && ends == 0
    ensures number > 0 && startRc == 0 ==> DecidedBy(control, calls, outcome) && ends == 1
  {
    calls, ends := 0, 0;
    if number <= 0 { return BadNumber, calls, ends; }
    if startRc != 0 { return Rejected(startRc), calls, ends; }
    var chunks: seq<seq<Byte>> := [];
    var total, streak := 0, 0;
    outcome := CallCap;
    while calls < MAX_CALLS
      invariant outcome == CallCap && calls <= MAX_CALLS
      invariant Undecided(control, calls)
      invariant Joined(chunks) == TextOf(control, calls) && total == |TextOf(control, calls)|
      invariant streak == Streak(control, calls)
    {
      var r := control(calls);
      calls := calls + 1;
      if r.rc == EW_BUFFER {
        streak := streak + 1;
        if streak > MAX_EMPTY_STREAK {
          outcome := NeverYielded;
          break;
        }
        continue;
      }
      streak := 0;
      if r.rc != 0 {
        outcome := Rejected(r.rc);
        break;
      }
      var got := Got(r);
      JoinedSnoc(chunks, got);
      chunks := chunks + [got];
      total := total + |got|;
      if total > MAX_BYTES {
        outcome := TooLong;
        break;
      }
      if total > 1 && EndsInPercent(got) {
        outcome := Program(Joined(chunks));
        break;
      }
    }
    ends := 1;
  }

  /** `b"".join(chunks)` */
  function Joined(chunks: seq<seq<Byte>>): seq<Byte> {
    if chunks == [] then [] else Joined(chunks[..|chunks| - 1]) + chunks[|chunks| - 1]
  }

  lemma JoinedSnoc(chunks: seq<seq<Byte>>, chunk: seq<Byte>)
    ensures Joined(chunks + [chunk]) == Joined(chunks) + chunk
  {
    assert (chunks + [chunk])[..|chunks|] == chunks;
  }

  // ---------------------------------------------------------------- what an upload returns

  lemma {:induction false} TextGrows(control: Control, m: nat, n: nat)
    requires m <= n
    ensures TextOf(control, m) <= TextOf(control, n)
  {
    if m < n { TextGrows(control, m, n - 1); }
  }

  /** A program returned is everything the control sent up to and including the first chunk that ends in
      `%` with more than one byte in hand; it has 2 to 2,000,000 bytes, no call before it was refused, and
      no more than 250 in a row were empty. */
  lemma ReturnedProgram(control: Control, calls: nat, text: seq<Byte>)
    requires DecidedBy(control, calls, Program(text))
    ensures text == TextOf(control, calls) && 2 <= |text| <= 2000000 && calls <= 5000
    ensures control(calls - 1).rc == 0 && EndsInPercent(Got(control(calls - 1)))
    ensures forall i: nat | i < calls ::
              (control(i).rc == 0 || control(i).rc == 10) && !Starved(control, i)
    ensures forall i: nat | i < calls - 1 && control(i).rc == 0 && EndsInPercent(Got(control(i))) ::
              |TextOf(control, i + 1)| <= 1
  {
    forall i: nat | i < calls
      ensures (control(i).rc == 0 || control(i).rc == 10) && !Starved(control, i)
    {
      VerdictIff(control, i);
      if i < calls - 1 { assert Verdict(control, i).None?; }
    }
    forall i: nat | i < calls - 1 && control(i).rc == 0 && EndsInPercent(Got(control(i)))
      ensures |TextOf(control, i + 1)| <= 1
    {
      assert Verdict(control, i).None?;
      TextGrows(control, i + 1, calls);
    }
  }

  lemma Before(control: Control, m: nat, n: nat)
    requires Undecided(control, n)
    ensures 0 < m <= n ==> Verdict(control, m - 1).None?
  {
  }

  /** One control, one outcome. */
  lemma DecidedOnce(control: Control, m: nat, a: Outcome, n: nat, b: Outcome)
    requires DecidedBy(control, m, a) && DecidedBy(control, n, b)
    ensures m == n && a == b
  {
    Before(control, m, n - 1);
    Before(control, n, m - 1);
  }

  // ---------------------------------------------------------------- byte-faithfulness

  /** The control sends a whole program in its first `calls` calls: no refusal, never more than 250 empty
      replies in a row, within the caps, the last chunk ending in `%`. */
  ghost predicate Serves(control: Control, calls: nat, text: seq<Byte>) {
    && 0 < calls <= 5000 && text == TextOf(control, calls) && 2 <= |text| <= 2000000
    && (forall i: nat | i < calls :: (control(i).rc == 0 || control(i).rc == 10) && !Starved(control, i))
    && control(calls - 1).rc == 0 && EndsInPercent(Got(control(calls - 1)))
  }

  /** Call `i` brings a chunk the loop takes for the last one. */
  ghost predicate LooksLast(control: Control, i: nat) {
    control(i).rc == 0 && |TextOf(control, i + 1)| > 1 && EndsInPercent(Got(control(i)))
  }

  lemma ServedVerdict(control: Control, calls: nat, text: seq<Byte>, i: nat)
    requires Serves(control, calls, text) && i < calls
    ensures Verdict(control, i) == if LooksLast(control, i) then Some(Program(TextOf(control, i + 1))) else None
  {
    TextGrows(control, i + 1, calls);
    StreakAtLeast(control, i + 1, 251);
    hide Streak, TextOf, EndsInPercent;
  }

  lemma {:induction false} FirstLooksLast(control: Control, calls: nat) returns (first: nat)
    requires calls > 0 && LooksLast(control, calls - 1)
    ensures first < calls && LooksLast(control, first) && forall i: nat | i < first :: !LooksLast(control, i)
  {
    first := 0;
    while !LooksLast(control, first)
      invariant first < calls && forall i: nat | i < first :: !LooksLast(control, i)
      decreases calls - first
    {
      first := first + 1;
    }
  }

  /** A control that serves a program always has it uploaded — but up to the first chunk that looks like
      the last one, a leading `%` line on its own included. */
  lemma ServedUpload(control: Control, calls: nat, text: seq<Byte>) returns (first: nat)
    requires Serves(control, calls, text)
    ensures first < calls && LooksLast(control, first) && forall i: nat | i < first :: !LooksLast(control, i)
    ensures DecidedBy(control, first + 1, Program(TextOf(control, first + 1)))
  {
    first := FirstLooksLast(control, calls);
    ServedVerdict(control, calls, text, first);
    forall i: nat | i < first ensures Verdict(control, i).None? {
      ServedVerdict(control, calls, text, i);
    }
  }

  /** What comes back is the whole program exactly if every chunk after the first one that looks last is
      empty. */
  lemma WholeProgramIff(control: Control, calls: nat, text: seq<Byte>, taken: nat, outcome: Outcome)
    requires Serves(control, calls, text) && DecidedBy(control, taken, outcome)
    ensures outcome == Program(text) <==>
            forall i: nat, j: nat | i < j < calls && LooksLast(control, i) ::
              control(j).rc == 0 ==> Got(control(j)) == []
  {
    var first := ServedUpload(control, calls, text);
    DecidedOnce(control, taken, outcome, first + 1, Program(TextOf(control, first + 1)));
    RestEmptyIff(control, first + 1, calls);
    hide TextOf, EndsInPercent, DecidedBy, Serves;
    if outcome != Program(text) {
      var j: nat :| first + 1 <= j < calls && control(j).rc == 0 && Got(control(j)) != [];
      assert LooksLast(control, first);
    }
  }

  lemma {:induction false} RestEmptyIff(control: Control, m: nat, n: nat)
    requires m <= n
    ensures TextOf(control, m) == TextOf(control, n) <==>
            forall j: nat | m <= j < n && control(j).rc == 0 :: Got(control(j)) == []
  {
    if m < n {
      RestEmptyIff(control, m, n - 1);
      TextGrows(control, m, n - 1);
    }
  }

  /** The buffer with `chunk` at its start. */
  function Filled(chunk: seq<Byte>): Buffer
    requires |chunk| <= CHUNK_BYTES
  {
    chunk + seq(CHUNK_BYTES - |chunk|, i => 0)
  }

  lemma FilledGot(chunk: seq<Byte>)
    requires |chunk| <= CHUNK_BYTES
    ensures Got(Reply(0, |chunk|, Filled(chunk))) == chunk
  {
  }

  /** A control that sends the leading `%` line in a chunk of its own: the upload stops there. */
  lemma LeadingPercentLineEndsUpload(rest: seq<Byte>)
    requires 0 < |rest| <= CHUNK_BYTES && EndsInPercent(rest)
    ensures var control: Control :=
              n => if n == 0 then Reply(0, 2, Filled([PERCENT, 10])) else Reply(0, |rest|, Filled(rest));
            && Serves(control, 2, [PERCENT, 10] + rest)
            && DecidedBy(control, 1, Program([PERCENT, 10]))
  {
    var control: Control := n => if n == 0 then Reply(0, 2, Filled([PERCENT, 10])) else Reply(0, |rest|, Filled(rest));
    assert StripRight([PERCENT, 10]) == [PERCENT] by { assert [PERCENT, 10][..1] == [PERCENT]; }
    FilledGot([PERCENT, 10]);
    FilledGot(rest);
    hide Filled, Got;
    assert TextOf(control, 1) == [PERCENT, 10];
    assert TextOf(control, 2) == [PERCENT, 10] + rest;
  }
}
