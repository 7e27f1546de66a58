/** Names of conflict copies (`conflictName` in convex/agents/agentDriveUploads.ts). Lengths count UTF-16 units. */
module DriveNames {
  import opened Common

  const MAX_NAME: nat := 255
  const MAX_EXTENSION: nat := 24
  const TRIES: nat := 100

  datatype Naming = Named(name: string) | Unsafe | AllTaken

  function Units(s: string): nat {
    if s == "" then 0 else Units(s[..|s| - 1]) + if s[|s| - 1] as int > 0xFFFF then 2 else 1
  }

  function Digits(n: nat): string {
    if n < 10 then [('0' as int + n) as char] else Digits(n / 10) + [('0' as int + n % 10) as char]
  }

  function LastDot(s: string): Option<nat>
    ensures LastDot(s).Some? ==> LastDot(s).value < |s|
  {
    if s == "" then None else if s[|s| - 1] == '.' then Some(|s| - 1) else LastDot(s[..|s| - 1])
  }

  /** The part from the last dot on, unless the name starts there or the part is too long. */
  function Extension(name: string): string {
    match LastDot(name)
    case None => ""
    case Some(dot) => if dot > 0 && Units(name[dot..]) <= MAX_EXTENSION then name[dot..] else ""
  }

  function Stem(name: string): string {
    match LastDot(name)
    case None => name
    case Some(dot) => if Extension(name) != "" then name[..dot] else name
  }

  function Suffix(index: nat, extension: string): string {
    " (agent" + (if index == 1 then "" else " " + Digits(index)) + ")" + extension
  }

  /** The characters kept in front of a suffix of the given length; the last ones go first. */
  function Trim(stem: string, suffix: nat): string {
    if stem != "" && Units(stem) + suffix > MAX_NAME then Trim(stem[..|stem| - 1], suffix) else stem
  }

  function Candidate(name: string, index: nat): string {
    var suffix := Suffix(index, Extension(name));
    Trim(Stem(name), Units(suffix)) + suffix
  }

  /** The first free candidate from `index` on; an unsafe one ends the search. */
  function ConflictName(name: string, safe: string -> bool, taken: string -> bool, index: nat): Naming
    decreases TRIES + 1 - index
  {
    if index > TRIES then AllTaken
    else
      var candidate := Candidate(name, index);
      if !safe(candidate) then Unsafe
      else if !taken(candidate) then Named(candidate)
      else ConflictName(name, safe, taken, index + 1)
  }

  // ----- what the search finds ---------------------------------------------------------------------------

  lemma {:induction false} UnitsConcat(a: string, b: string)
    ensures Units(a + b) == Units(a) + Units(b)
    decreases |b|
  {
    if b == "" {
      assert a + b == a;
    } else {
      assert (a + b)[..|a + b| - 1] == a + b[..|b| - 1];
      UnitsConcat(a, b[..|b| - 1]);
    }
  }

  lemma {:induction false} TrimFits(stem: string, suffix: nat)
    requires suffix <= MAX_NAME
    ensures Trim(stem, suffix) <= stem && Units(Trim(stem, suffix)) + suffix <= MAX_NAME
    ensures Units(stem) + suffix <= MAX_NAME ==> Trim(stem, suffix) == stem
    decreases |stem|
  {
    if stem != "" && Units(stem) + suffix > MAX_NAME {
      TrimFits(stem[..|stem| - 1], suffix);
    }
  }

  /** No more than needed is popped: one character more would not fit. */
  lemma {:induction false} TrimIsLongest(stem: string, suffix: nat)
    ensures var kept := Trim(stem, suffix);
            |kept| <= |stem| && kept == stem[..|kept|] && (|kept| < |stem| ==> Units(stem[..|kept| + 1]) + suffix > MAX_NAME)
    decreases |stem|
  {
    if stem != "" && Units(stem) + suffix > MAX_NAME {
      var front := stem[..|stem| - 1];
      TrimIsLongest(front, suffix);
      var kept := Trim(front, suffix);
      assert kept == stem[..|kept|];
      if |kept| < |front| {
        assert front[..|kept| + 1] == stem[..|kept| + 1];
      } else {
        assert stem[..|kept| + 1] == stem;
      }
    }
  }

  lemma {:induction false} DigitsUnits(n: nat)
    requires n < 1000
    ensures Units(Digits(n)) <= 3
    decreases n
  {
    var last := [('0' as int + n % 10) as char];
    assert last[..0] == "";
    assert Units(last) == 1;
    if n >= 10 {
      DigitsUnits(n / 10);
      UnitsConcat(Digits(n / 10), last);
      if n < 100 {
        assert Units(Digits(n / 10)) == 1 by {
          var one := Digits(n / 10);
          assert one[..0] == "";
        }
      } else {
        TwoDigits(n / 10);
      }
    }
  }

  lemma TwoDigits(n: nat)
    requires 10 <= n < 100
    ensures Units(Digits(n)) == 2
  {
    var first, last := Digits(n / 10), [('0' as int + n % 10) as char];
    assert first[..0] == "" && last[..0] == "";
    UnitsConcat(first, last);
  }

  lemma SuffixFits(index: nat, extension: string)
    requires 1 <= index <= TRIES && Units(extension) <= MAX_EXTENSION
    ensures Units(Suffix(index, extension)) <= MAX_NAME
  {
    var middle := if index == 1 then "" else " " + Digits(index);
    ShortText();
    DigitsUnits(index);
    UnitsConcat(" ", Digits(index));
    UnitsConcat(" (agent", middle);
    UnitsConcat(" (agent" + middle, ")");
    UnitsConcat(" (agent" + middle + ")", extension);
  }

  lemma ShortText()
    ensures Units("") == 0 && Units(" ") == 1 && Units(")") == 1 && Units(" (agent") <= 14
  {
    assert " "[..0] == "" && ")"[..0] == "";
    UnitsAtMost(" (agent");
  }

  lemma {:induction false} UnitsAtMost(s: string)
    ensures Units(s) <= 2 * |s|
    decreases |s|
  {
    if s != "" {
      UnitsAtMost(s[..|s| - 1]);
    }
  }

  predicate EndsWith(s: string, end: string) {
    |s| >= |end| && s[|s| - |end|..] == end
  }

  lemma SplitsAtExtension(name: string)
    ensures Stem(name) + Extension(name) == name && Units(Extension(name)) <= MAX_EXTENSION
  {
    hide LastDot;
    ShortText();
  }

  lemma EndsWithTail(a: string, b: string, end: string)
    ensures EndsWith(a + (b + end), end)
  {
    var s := a + (b + end);
    assert s[|s| - |end|..] == end;
  }

  /** With one character more of the name the candidate would be too long. */
  predicate KeepsAsMuch(name: string, index: nat, k: int) {
    0 <= k <= |Stem(name)| && (k < |Stem(name)| ==> Units(Stem(name)[..k + 1]) + Units(Suffix(index, Extension(name))) > MAX_NAME)
  }

  /** Every candidate fits the limit, keeps the extension and starts with as much of the name as fits. */
  lemma CandidateShape(name: string, index: nat)
    requires 1 <= index <= TRIES
    ensures var c := Candidate(name, index);
            && Units(c) <= MAX_NAME && EndsWith(c, Extension(name))
            && exists k :: KeepsAsMuch(name, index, k) && c == Stem(name)[..k] + Suffix(index, Extension(name))
    ensures Stem(name) + Extension(name) == name
  {
    hide Units, Trim, Digits, LastDot, Extension, Stem, EndsWith;
    var extension := Extension(name);
    var suffix := Suffix(index, extension);
    SplitsAtExtension(name);
    SuffixFits(index, extension);
    TrimFits(Stem(name), Units(suffix));
    TrimIsLongest(Stem(name), Units(suffix));
    var kept := Trim(Stem(name), Units(suffix));
    UnitsConcat(kept, suffix);
    assert KeepsAsMuch(name, index, |kept|) && kept == Stem(name)[..|kept|];
    EndsWithTail(kept, " (agent" + (if index == 1 then "" else " " + Digits(index)) + ")", extension);
  }

  /**
   The search gives the first candidate that is free, and fails only for a reason: it gives up when all
   hundred are taken, or at an unsafe candidate all before which were taken.
   */
  lemma {:induction false} SearchIsExact(name: string, safe: string -> bool, taken: string -> bool, index: nat)
    requires 1 <= index <= TRIES + 1
    ensures match ConflictName(name, safe, taken, index)
            case Named(n) =>
              && safe(n) && !taken(n)
              && exists k :: index <= k <= TRIES && n == Candidate(name, k)
                             && forall j :: index <= j < k ==> safe(Candidate(name, j)) && taken(Candidate(name, j))
            case Unsafe =>
              exists k :: index <= k <= TRIES && !safe(Candidate(name, k))
                          && forall j :: index <= j < k ==> safe(Candidate(name, j)) && taken(Candidate(name, j))
            case AllTaken => forall j :: index <= j <= TRIES ==> safe(Candidate(name, j)) && taken(Candidate(name, j))
    decreases TRIES + 1 - index
  {
    hide Candidate;
    if index <= TRIES && safe(Candidate(name, index)) && taken(Candidate(name, index)) {
      SearchIsExact(name, safe, taken, index + 1);
    }
  }

  /** The search as it runs: characters are popped until the suffix fits. */
  method FindConflictName(name: string, safe: string -> bool, taken: string -> bool) returns (r: Naming)
    ensures r == ConflictName(name, safe, taken, 1)
  {
    var extension := Extension(name);
    var index := 1;
    while index <= TRIES
      invariant 1 <= index <= TRIES + 1
      invariant ConflictName(name, safe, taken, index) == ConflictName(name, safe, taken, 1)
    {
      var suffix := Suffix(index, extension);
      var chars := Stem(name);
      while chars != "" && Units(chars) + Units(suffix) > MAX_NAME
        invariant Trim(chars, Units(suffix)) == Trim(Stem(name), Units(suffix))
        decreases |chars|
      {
        chars := chars[..|chars| - 1];
      }
      var candidate := chars + suffix;
      if !safe(candidate) {
        return Unsafe;
      }
      if !taken(candidate) {
        return Named(candidate);
      }
      index := index + 1;
    }
    return AllTaken;
  }
}
