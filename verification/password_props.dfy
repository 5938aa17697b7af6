/** What the generator of module `Password` can and cannot produce.

    Soundness: a finished generation has exactly `Size` runes, each from an
    enabled alphabet, assembled from runs that are each shorter than their
    class's `maxRun`. Completeness: every such string is produced by some
    tape of valid draws, so the loop's logic adds no restriction beyond the
    alphabets. Progress: the run length
    may be drawn as zero, and a tape of zeros never finishes a password.
 */
module PasswordProperties {
  import opened Wrappers
  import opened Entropy
  import opened Password

  /** `ch` belongs to the alphabet of some class of the list. */
  predicate InSomeClass(ch: char, classes: seq<ClassSpec>)
  {
    exists k :: 0 <= k < |classes| && ch in classes[k].alphabet
  }

  lemma {:induction false} ConcatFromClasses(runs: seq<Run>, classes: seq<ClassSpec>)
    requires forall k :: 0 <= k < |runs| ==> RunFrom(runs[k], classes)
    ensures forall j :: 0 <= j < |Concat(runs)| ==> InSomeClass(Concat(runs)[j], classes)
  {
    if |runs| > 0 {
      ConcatFromClasses(runs[1..], classes);
      var head := runs[0];
      assert RunFrom(head, classes);
      var k :| 0 <= k < |classes| && classes[k] == head.spec;
      forall j | 0 <= j < |Concat(runs)|
        ensures InSomeClass(Concat(runs)[j], classes)
      {
        if j < |head.text| {
          assert Concat(runs)[j] == head.text[j];
          assert Concat(runs)[j] in classes[k].alphabet;
        } else {
          assert Concat(runs)[j] == Concat(runs[1..])[j - |head.text|];
        }
      }
    }
  }

  /** The initial classes hold exactly the enabled runes. */
  lemma InitialClassesEnabled(config: Config, ch: char)
    ensures InSomeClass(ch, InitialClasses(config)) <==> Enabled(config, ch)
  {
    var cs := InitialClasses(config);
    if Enabled(config, ch) {
      if ch in LowerCaseClass() {
        assert ch in cs[0].alphabet;
      } else if ch in UpperCaseClass() {
        assert ch in cs[1].alphabet;
      } else if ch in DigitClass() {
        assert ch in cs[2].alphabet;
      } else {
        assert ch in cs[3].alphabet;
      }
    }
  }

  /** A rune found at position `j` only occurs once. */
  lemma OccursOnce(c: string, j: int)
    requires 0 <= j < |c|
    requires forall i :: 0 <= i < |c| && i != j ==> c[i] != c[j]
    ensures multiset(c)[c[j]] == 1
  {
    assert c == c[..j] + [c[j]] + c[j + 1..];
    assert c[j] !in c[..j];
    assert c[j] !in c[j + 1..];
  }

  /** `'0'` is listed twice in the digit alphabet, every other digit once. */
  lemma ZeroListedTwice()
    ensures multiset(DigitClass())['0'] == 2
    ensures forall ch :: '1' <= ch <= '9' ==> multiset(DigitClass())[ch] == 1
  {
    var c := DigitClass();
    assert c == c[..10] + [c[10]];
    OccursOnce(c[..10], 0);
    forall ch | '1' <= ch <= '9'
      ensures multiset(c)[ch] == 1
    {
      OccursOnce(c, ch as int - '0' as int);
    }
  }

  /** A special rune is neither a letter nor a digit. */
  lemma SpecialIsApart(ch: char)
    requires ch in SpecialClass()
    ensures ch !in LowerCaseClass() && ch !in UpperCaseClass() && ch !in DigitClass()
  {
    var j :| 0 <= j < |SpecialClass()| && SpecialClass()[j] == ch;
    assert !('a' <= ch <= 'z') && !('A' <= ch <= 'Z') && !('0' <= ch <= '9');
  }

  /** Soundness of a finished generation. */
  lemma GeneratedPasswordShape(config: Config, tape: Tape)
    ensures GeneratePasswordWithConfig(config, tape).Generated? ==> |GeneratePasswordWithConfig(config, tape).password| == Size
    ensures GeneratePasswordWithConfig(config, tape).Generated? ==>
              forall j :: 0 <= j < Size ==> Enabled(config, GeneratePasswordWithConfig(config, tape).password[j])
    ensures GeneratePasswordWithConfig(config, tape).Generated? && !config.allowSpecial ==>
              forall j :: 0 <= j < Size ==> GeneratePasswordWithConfig(config, tape).password[j] !in SpecialClass()
    ensures GeneratePasswordWithConfig(config, tape).Generated? ==>
              forall k :: 0 <= k < |GeneratePasswordWithConfig(config, tape).runs| ==>
                var run := GeneratePasswordWithConfig(config, tape).runs[k];
                run.spec in InitialClasses(config) && |run.text| < run.spec.maxRun
    ensures !GeneratePasswordWithConfig(config, tape).RanOutOfCharacters?
  {
    var r := GeneratePasswordWithConfig(config, tape);
    if r.Generated? {
      var cs := InitialClasses(config);
      ConcatFromClasses(r.runs, cs);
      forall j | 0 <= j < Size
        ensures Enabled(config, r.password[j])
        ensures !config.allowSpecial ==> r.password[j] !in SpecialClass()
      {
        InitialClassesEnabled(config, r.password[j]);
        if r.password[j] in SpecialClass() {
          SpecialIsApart(r.password[j]);
        }
      }
    }
  }

  /** Where rune `ch` sits in alphabet `s` (its first position). */
  function IndexOf(s: CharClass, ch: char): (r: nat)
    requires ch in s
    ensures r < |s| && s[r] == ch
  {
    if s[0] == ch then 0 else 1 + IndexOf(s[1..], ch)
  }

  predicate AllEnabled(config: Config, s: string)
  {
    forall j :: 0 <= j < |s| ==> Enabled(config, s[j])
  }

  /** Each rune of a class is picked by the index draw of its position. */
  lemma ChooseRuneReaches(c: CharClass, j: int, rest: Tape)
    requires 0 <= j < |c|
    ensures ChooseRune(c, [j] + rest) == Some((c[j], rest))
  {
    assert ([j] + rest)[1..] == rest;
  }

  /** The positions in `c` of the runes of `s`, one index draw per rune. */
  function PositionsOf(c: CharClass, s: string): (at: seq<int>)
    requires forall j :: 0 <= j < |s| ==> s[j] in c
    ensures |at| == |s|
    ensures forall j :: 0 <= j < |s| ==> 0 <= at[j] < |c| && c[at[j]] == s[j]
    decreases |s|
  {
    if |s| == 0 then [] else [IndexOf(c, s[0])] + PositionsOf(c, s[1..])
  }

  /** Every text over the class is what the rune loop writes when the index
      draws are the positions of its runes. */
  lemma {:induction false} DrawRunesWrites(c: CharClass, s: string, rest: Tape)
    requires |c| > 0
    requires forall j :: 0 <= j < |s| ==> s[j] in c
    ensures DrawRunes(c, |s|, PositionsOf(c, s) + rest) == Some((s, rest))
    decreases |s|
  {
    if |s| == 0 {
      assert PositionsOf(c, s) + rest == rest;
    } else {
      var tail := PositionsOf(c, s[1..]) + rest;
      assert PositionsOf(c, s) + rest == [IndexOf(c, s[0])] + tail;
      ChooseRuneReaches(c, IndexOf(c, s[0]), tail);
      DrawRunesWrites(c, s[1..], rest);
      assert [s[0]] + s[1..] == s;
    }
  }

  /** The converse of `ChooseRun`'s contract: every text over the class that
      is shorter than the bound is a run `classSpec.choose` can write, from
      the tape holding its length and then the positions of its runes. */
  lemma ChooseRunWrites(c: ClassSpec, s: string, rest: Tape, base: int, max: int)
    requires |c.alphabet| > 0
    requires |s| < Min3(max - base, c.remaining, c.maxRun)
    requires forall j :: 0 <= j < |s| ==> s[j] in c.alphabet
    ensures ChooseRun(c, [|s|] + (PositionsOf(c.alphabet, s) + rest), base, max) == Some(Chosen(s, |s|, false, rest))
  {
    var runes := PositionsOf(c.alphabet, s) + rest;
    var t := [|s|] + runes;
    assert Intn(Min3(max - base, c.remaining, c.maxRun), t) == Some(Draw(|s|, runes));
    DrawRunesWrites(c.alphabet, s, rest);
  }

  /** A run-length draw of zero writes nothing and consumes one value. */
  lemma EmptyRun(c: ClassSpec, rest: Tape, base: int, max: int)
    requires |c.alphabet| > 0 && Min3(max - base, c.remaining, c.maxRun) > 0
    ensures ChooseRun(c, [0] + rest, base, max) == Some(Chosen("", 0, false, rest))
  {
    assert ([0] + rest)[1..] == rest;
  }

  /** A run-length draw of one writes the rune picked by the next value. */
  lemma OneRuneRun(c: ClassSpec, j: int, rest: Tape, base: int, max: int)
    requires 0 <= j < |c.alphabet| && Min3(max - base, c.remaining, c.maxRun) > 1
    ensures ChooseRun(c, [1, j] + rest, base, max) == Some(Chosen([c.alphabet[j]], 1, false, rest))
  {
    var t := [1, j] + rest;
    assert t[1..] == [j] + rest;
    assert Intn(Min3(max - base, c.remaining, c.maxRun), t) == Some(Draw(1, [j] + rest));
    ChooseRuneReaches(c.alphabet, j, rest);
    assert DrawRunes(c.alphabet, 0, rest) == Some(("", rest));
    assert [c.alphabet[j]] + "" == [c.alphabet[j]];
    assert DrawRunes(c.alphabet, 1, [j] + rest) == Some(([c.alphabet[j]], rest));
  }

  /** The choice of one rune: a class of the list and a position in its alphabet. */
  datatype Pick = Pick(which: nat, at: nat)

  /** The pick names the rune `ch` of one of the classes. */
  predicate Names(classes: seq<ClassSpec>, p: Pick, ch: char)
  {
    && p.which < |classes|
    && p.at < |classes[p.which].alphabet|
    && classes[p.which].alphabet[p.at] == ch
  }

  /** The picks name, position by position, the runes of `s`. */
  predicate Spells(classes: seq<ClassSpec>, picks: seq<Pick>, s: string)
    decreases |picks|
  {
    && |picks| == |s|
    && (|picks| > 0 ==> Names(classes, picks[0], s[0]) && Spells(classes, picks[1..], s[1..]))
  }

  /** A tape that writes the picks one rune per run: the class draw, a run
      length of one, then the position draw. */
  function Encode(picks: seq<Pick>): (t: Tape)
    ensures |t| == 3 * |picks|
  {
    if |picks| == 0 then [] else [picks[0].which, 1, picks[0].at] + Encode(picks[1..])
  }

  /** Classes whose budget and run bound both admit a run of one rune. */
  predicate Roomy(classes: seq<ClassSpec>)
  {
    && Usable(classes)
    && forall k :: 0 <= k < |classes| ==> classes[k].remaining > 1 && classes[k].maxRun > 1
  }

  /** Drawing class `k`, a run length of one and position `j` writes one rune
      as a run of its own. */
  lemma OneRuneStep(classes: seq<ClassSpec>, base: int, k: nat, j: nat, later: Tape)
    requires Roomy(classes) && 0 <= base < Size
    requires k < |classes| && j < |classes[k].alphabet|
    ensures Loop(classes, base, [k, 1, j] + later) ==
              Resume([classes[k].alphabet[j]], [Run(classes[k], [classes[k].alphabet[j]])], Loop(classes, base + 1, later))
  {
    var spec := classes[k];
    var tape := [k, 1, j] + later;
    assert tape[1..] == [1, j] + later;
    assert Intn(|classes|, tape) == Some(Draw(k, [1, j] + later));
    assert Min3(Size + 1 - base, spec.remaining, spec.maxRun) > 1;
    OneRuneRun(spec, j, later, base, Size + 1);
    LoopStep(classes, base, tape, Draw(k, [1, j] + later), Chosen([spec.alphabet[j]], 1, false, later));
  }

  /** The loop, started at `base` on `tape`, writes exactly `s`. */
  predicate Writes(classes: seq<ClassSpec>, base: int, tape: Tape, s: string)
    requires Usable(classes) && 0 <= base <= Size
  {
    Loop(classes, base, tape).Generated? && Loop(classes, base, tape).password == s
  }

  /** What `LoopReaches` needs: roomy classes, and picks that spell the
      runes still to be written from `base`. */
  predicate ReachFrom(classes: seq<ClassSpec>, base: int, picks: seq<Pick>, s: string)
  {
    Roomy(classes) && 0 <= base <= Size && |s| == Size - base && Spells(classes, picks, s)
  }

  /** One step of `LoopReaches`: when the picks after the first make the
      loop write the rest of `s` from `base + 1`, all the picks make it write
      `s` from `base`. */
  lemma ReachStep(classes: seq<ClassSpec>, base: int, picks: seq<Pick>, s: string)
    requires ReachFrom(classes, base, picks, s) && base < Size
    ensures ReachFrom(classes, base + 1, picks[1..], s[1..])
    ensures Writes(classes, base + 1, Encode(picks[1..]), s[1..]) ==> Writes(classes, base, Encode(picks), s)
  {
    var later := Loop(classes, base + 1, Encode(picks[1..]));
    assert Encode(picks) == [picks[0].which, 1, picks[0].at] + Encode(picks[1..]);
    OneRuneStep(classes, base, picks[0].which, picks[0].at, Encode(picks[1..]));
    if later.Generated? && later.password == s[1..] {
      ResumeOneRune(s, Run(classes[picks[0].which], [s[0]]), later);
    }
  }

  /** With nothing left to write, any tape writes the empty rest. */
  lemma ReachEnd(classes: seq<ClassSpec>, picks: seq<Pick>, s: string)
    requires Usable(classes) && |s| == 0
    ensures Writes(classes, Size, Encode(picks), s)
  {
    LoopAtEnd(classes, Encode(picks));
  }

  /** The loop writes `s` from `base` on when the tape spells it with runs of one rune. */
  lemma {:induction false} LoopReaches(classes: seq<ClassSpec>, base: int, picks: seq<Pick>, s: string)
    requires ReachFrom(classes, base, picks, s)
    ensures Writes(classes, base, Encode(picks), s)
    decreases |s|
  {
    if base < Size {
      ReachStep(classes, base, picks, s);
      LoopReaches(classes, base + 1, picks[1..], s[1..]);
      assert Writes(classes, base + 1, Encode(picks[1..]), s[1..]);
    } else {
      ReachEnd(classes, picks, s);
    }
  }

  /** Writing the first rune of `s` in front of a loop that writes the rest writes `s`. */
  lemma ResumeOneRune(s: string, run: Run, rest: GenResult)
    requires |s| > 0 && rest.Generated? && rest.password == s[1..]
    ensures Resume([s[0]], [run], rest).Generated?
    ensures Resume([s[0]], [run], rest).password == s
  {
    assert [s[0]] + s[1..] == s;
  }

  /** Every rune of `s` belongs to some class of the list. */
  predicate AllInClasses(s: string, classes: seq<ClassSpec>)
  {
    forall j :: 0 <= j < |s| ==> InSomeClass(s[j], classes)
  }

  /** For each rune of `s`, a class holding it and its first position there. */
  ghost function PicksFor(classes: seq<ClassSpec>, s: string): (picks: seq<Pick>)
    requires AllInClasses(s, classes)
    ensures Spells(classes, picks, s)
    decreases |s|
  {
    if |s| == 0 then []
    else
      assert InSomeClass(s[0], classes);
      var k :| 0 <= k < |classes| && s[0] in classes[k].alphabet;
      var head := Pick(k, IndexOf(classes[k].alphabet, s[0]));
      AllInClassesTail(s, classes);
      var tail := PicksFor(classes, s[1..]);
      assert ([head] + tail)[1..] == tail;
      [head] + tail
  }

  lemma AllInClassesTail(s: string, classes: seq<ClassSpec>)
    requires |s| > 0 && AllInClasses(s, classes)
    ensures AllInClasses(s[1..], classes)
  {
    forall j | 0 <= j < |s| - 1
      ensures InSomeClass(s[1..][j], classes)
    {
      assert s[1..][j] == s[j + 1];
    }
  }

  /** A tape that makes the generator write `s`. */
  ghost function TapeFor(config: Config, s: string): (t: Tape)
    requires AllEnabled(config, s)
    ensures |t| == 3 * |s|
  {
    EnabledInInitialClasses(config, s);
    Encode(PicksFor(InitialClasses(config), s))
  }

  lemma EnabledInInitialClasses(config: Config, s: string)
    requires AllEnabled(config, s)
    ensures AllInClasses(s, InitialClasses(config))
  {
    forall j | 0 <= j < |s|
      ensures InSomeClass(s[j], InitialClasses(config))
    {
      InitialClassesEnabled(config, s[j]);
    }
  }

  /** Every enabled string of `Size` runes is the password of some tape. */
  lemma EnabledPasswordIsReachable(config: Config, pw: string)
    requires |pw| == Size && AllEnabled(config, pw)
    ensures GeneratePasswordWithConfig(config, TapeFor(config, pw)).Generated?
    ensures GeneratePasswordWithConfig(config, TapeFor(config, pw)).password == pw
  {
    var cs := InitialClasses(config);
    assert Roomy(cs);
    EnabledInInitialClasses(config, pw);
    LoopReaches(cs, 0, PicksFor(cs, pw), pw);
    assert Writes(cs, 0, TapeFor(config, pw), pw);
  }

  /** `pw` is a password that the tape `tape` makes the generator return. */
  predicate Produces(config: Config, tape: Tape, pw: string)
  {
    GeneratePasswordWithConfig(config, tape).Generated? && GeneratePasswordWithConfig(config, tape).password == pw
  }

  /** The possible passwords are exactly the enabled strings of `Size` runes. */
  lemma ProducibleIff(config: Config, pw: string)
    ensures (exists tape :: Produces(config, tape, pw)) <==> |pw| == Size && AllEnabled(config, pw)
  {
    if exists tape :: Produces(config, tape, pw) {
      var tape :| Produces(config, tape, pw);
      GeneratedPasswordShape(config, tape);
    }
    if |pw| == Size && AllEnabled(config, pw) {
      EnabledPasswordIsReachable(config, pw);
      assert Produces(config, TapeFor(config, pw), pw);
    }
  }

  function Zeros(n: nat): (t: Tape)
    ensures |t| == n
  {
    seq(n, _ => 0)
  }

  /** A source that only ever returns zero keeps drawing empty runs from the
      first class: no finite run of zeros finishes a password. */
  lemma {:induction false} LoopOnZeros(classes: seq<ClassSpec>, n: nat)
    requires Usable(classes)
    ensures Loop(classes, 0, Zeros(n)) == OutOfEntropy
    decreases n
  {
    if n >= 1 {
      assert Zeros(n) == [0] + Zeros(n - 1);
      if n >= 2 {
        assert Zeros(n - 1) == [0] + Zeros(n - 2);
        EmptyRun(classes[0], Zeros(n - 2), 0, Size + 1);
        LoopOnZeros(classes, n - 2);
      }
    }
  }

  lemma ZeroTapeNeverFinishes(config: Config, n: nat)
    ensures GeneratePasswordWithConfig(config, Zeros(n)) == OutOfEntropy
  {
    LoopOnZeros(InitialClasses(config), n);
  }
}
