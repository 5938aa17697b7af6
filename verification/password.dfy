/** The password generator of password.go, modelled as written.

    A password of `Size` runes is built from "runs": each iteration picks a
    character class at random, draws a run length, and appends that many
    random runes of the class. The random source is the tape of module
    `Entropy`; every function here returns `OutOfEntropy` when the tape
    cannot answer a draw, so the model is about partial correctness.

    Facts of the code that the model keeps:
    - a run length is drawn from `[0, bound)`, so a run may be empty and is
      always shorter than the class's `maxRun`;
    - `classSpec.choose` has a value receiver, so the budget it decrements is
      a copy and the caller's class list never changes;
    - the class "removal" deletes the empty range `[i, i)`, so it removes
      nothing and the "ran out of characters" panic cannot happen.
 */
module Password {
  import opened Wrappers
  import opened Entropy

  /** An ordered alphabet; a rune may be listed more than once. */
  type CharClass = seq<char>

  /** A text whose runes count up by one from `lo` holds every rune of that range. */
  lemma Consecutive(c: string, lo: int)
    requires forall j :: 0 <= j < |c| ==> c[j] as int == lo + j
    ensures forall ch: char :: lo <= ch as int < lo + |c| ==> ch in c
  {
    forall ch: char | lo <= ch as int < lo + |c|
      ensures ch in c
    {
      assert c[ch as int - lo] == ch;
    }
  }

  /** The lower-case letters, each once. */
  function LowerCaseClass(): (c: CharClass)
    ensures |c| == 26
    ensures forall j :: 0 <= j < |c| ==> 'a' <= c[j] <= 'z'
    ensures forall ch :: 'a' <= ch <= 'z' ==> ch in c
  {
    var c := "abcdefghijklmnopqrstuvwxyz";
    assert forall j :: 0 <= j < |c| ==> c[j] as int == 'a' as int + j;
    Consecutive(c, 'a' as int);
    c
  }

  /** The upper-case letters, each once. */
  function UpperCaseClass(): (c: CharClass)
    ensures |c| == 26
    ensures forall j :: 0 <= j < |c| ==> 'A' <= c[j] <= 'Z'
    ensures forall ch :: 'A' <= ch <= 'Z' ==> ch in c
  {
    var c := "ABCDEFGHIJKLMNOPQRSTUVWXYZ";
    assert forall j :: 0 <= j < |c| ==> c[j] as int == 'A' as int + j;
    Consecutive(c, 'A' as int);
    c
  }

  /** The digits in order, with `'0'` listed again at the end: every digit
      occurs, and `'0'` occurs twice, first and last. */
  function DigitClass(): (c: CharClass)
    ensures |c| == 11
    ensures c[0] == '0' && c[10] == '0'
    ensures forall j :: 0 <= j < 10 ==> c[j] as int == '0' as int + j
    ensures forall j :: 0 <= j < |c| ==> '0' <= c[j] <= '9'
    ensures forall ch :: '0' <= ch <= '9' ==> ch in c
    ensures forall j :: 0 <= j < |c| ==> (c[j] == '0' <==> j == 0 || j == 10)
  {
    var c := "01234567890";
    var digits := c[..10];
    assert forall j :: 0 <= j < |digits| ==> digits[j] as int == '0' as int + j;
    Consecutive(digits, '0' as int);
    c
  }

  /** The special runes, a space among them; none is a letter or a digit. */
  function SpecialClass(): (c: CharClass)
    ensures |c| == 15
    ensures ' ' in c
    ensures forall j :: 0 <= j < |c| ==> !('a' <= c[j] <= 'z') && !('A' <= c[j] <= 'Z') && !('0' <= c[j] <= '9')
  {
    "!@#$%^&*()_+-= "
  }

  /** Per-generation state of one class: its alphabet, the budget of runes it
      may still contribute, and the bound on one run. */
  datatype ClassSpec = ClassSpec(alphabet: CharClass, remaining: int, maxRun: int)

  /** `charClass.choose`: one rune of the class, picked by an index draw. */
  function ChooseRune(c: CharClass, tape: Tape): (r: Option<(char, Tape)>)
    requires |c| > 0
    ensures r.Some? ==> r.value.0 in c && |r.value.1| == |tape| - 1
  {
    match Intn(|c|, tape)
    case None => None
    case Some(d) => Some((c[d.value], d.rest))
  }

  /** The `count` runes the loop of `classSpec.choose` writes, first drawn first. */
  function DrawRunes(c: CharClass, count: nat, tape: Tape): (r: Option<(string, Tape)>)
    requires |c| > 0
    ensures r.Some? ==> |r.value.0| == count && |r.value.1| == |tape| - count
    ensures r.Some? ==> forall j :: 0 <= j < count ==> r.value.0[j] in c
    decreases count
  {
    if count == 0 then Some(("", tape))
    else
      match ChooseRune(c, tape)
      case None => None
      case Some((rune, rest)) =>
        match DrawRunes(c, count - 1, rest)
        case None => None
        case Some((run, rest')) => Some(([rune] + run, rest'))
  }

  /** Go's built-in `min` on three integers. */
  function Min3(a: int, b: int, c: int): int
  {
    if a <= b && a <= c then a else if b <= c then b else c
  }

  /** `Min3` is the least of its three arguments. */
  lemma Min3IsLeast(a: int, b: int, c: int)
    ensures Min3(a, b, c) <= a && Min3(a, b, c) <= b && Min3(a, b, c) <= c
    ensures Min3(a, b, c) == a || Min3(a, b, c) == b || Min3(a, b, c) == c
  {
  }

  /** What `classSpec.choose` hands back: the runes it wrote, their number,
      its `remove` flag, and the unread tape. */
  datatype Chosen = Chosen(run: string, total: int, remove: bool, rest: Tape)

  /** `classSpec.choose`. The run length is drawn from
      `[0, min(max - base, remaining, maxRun))`, and the decremented budget
      belongs to the receiver's copy: it only feeds the `remove` flag. */
  function ChooseRun(c: ClassSpec, tape: Tape, base: int, max: int): (r: Option<Chosen>)
    requires |c.alphabet| > 0
    requires Min3(max - base, c.remaining, c.maxRun) > 0
    ensures r.Some? ==> 0 <= r.value.total < max - base
    ensures r.Some? ==> r.value.total < c.remaining && r.value.total < c.maxRun
    ensures r.Some? ==> |r.value.run| == r.value.total
    ensures r.Some? ==> forall j :: 0 <= j < |r.value.run| ==> r.value.run[j] in c.alphabet
    ensures r.Some? ==> !r.value.remove
    ensures r.Some? ==> |r.value.rest| < |tape|
  {
    match Intn(Min3(max - base, c.remaining, c.maxRun), tape)
    case None => None
    case Some(d) =>
      var remaining := c.remaining - d.value;
      match DrawRunes(c.alphabet, d.value, d.rest)
      case None => None
      case Some((run, rest)) => Some(Chosen(run, d.value, remaining == 0, rest))
  }

  /** Go's `slices.Delete(s, i, j)`: drop the elements with index in `[i, j)`. */
  function SliceDelete<T>(s: seq<T>, i: int, j: int): (r: seq<T>)
    requires 0 <= i <= j <= |s|
    ensures |r| == |s| - (j - i)
    ensures forall k :: 0 <= k < i ==> r[k] == s[k]
    ensures forall k :: j <= k < |s| ==> r[k - (j - i)] == s[k]
  {
    s[..i] + s[j..]
  }

  /** The removal step after a run: when `remove` is set, delete `[i, i)` and
      panic (`None`) if no class is left. Deleting an empty range removes
      nothing, so a non-empty list comes back unchanged whatever the flag. */
  function RemoveSpent(classes: seq<ClassSpec>, i: int, remove: bool): (r: Option<seq<ClassSpec>>)
    requires 0 <= i < |classes|
    ensures r == Some(classes)
  {
    if remove then
      var rest := SliceDelete(classes, i, i);
      assert rest == classes;
      if |rest| == 0 then None else Some(rest)
    else Some(classes)
  }

  /** The number of runes in a password. */
  const Size := 64

  datatype Config = Config(allowSpecial: bool)

  /** The classes a generation starts with: lower and upper case letters
      (budget 64, runs below 16), digits (budget 32, runs below 4) and, when
      allowed, the special runes (budget 16, runs below 4). */
  function InitialClasses(config: Config): (cs: seq<ClassSpec>)
    ensures Usable(cs)
  {
    var always := [ClassSpec(LowerCaseClass(), 64, 16), ClassSpec(UpperCaseClass(), 64, 16), ClassSpec(DigitClass(), 32, 4)];
    if config.allowSpecial then always + [ClassSpec(SpecialClass(), 16, 4)] else always
  }

  /** A class list every draw of the loop can be made from. */
  predicate Usable(classes: seq<ClassSpec>)
  {
    && |classes| > 0
    && forall k :: 0 <= k < |classes| ==> |classes[k].alphabet| > 0 && classes[k].remaining > 0 && classes[k].maxRun > 0
  }

  /** One run of the password: the class it was drawn from and its runes. */
  datatype Run = Run(spec: ClassSpec, text: string)

  /** A run that the class list could have produced in one `choose`. */
  predicate RunFrom(run: Run, classes: seq<ClassSpec>)
  {
    && run.spec in classes
    && |run.text| < run.spec.maxRun
    && forall j :: 0 <= j < |run.text| ==> run.text[j] in run.spec.alphabet
  }

  function Concat(runs: seq<Run>): string
  {
    if |runs| == 0 then "" else runs[0].text + Concat(runs[1..])
  }

  /** The result of a generation. Besides the password, `Generated` records
      the runs it was assembled from, so that properties of single runs can
      be stated. `RanOutOfCharacters` is the Go code's panic. */
  datatype GenResult =
    | Generated(password: string, runs: seq<Run>)
    | OutOfEntropy
    | RanOutOfCharacters

  /** The generation loop from `base` on: the runes still to be written. */
  function Loop(classes: seq<ClassSpec>, base: int, tape: Tape): (r: GenResult)
    requires Usable(classes)
    requires 0 <= base <= Size
    ensures r.Generated? ==> |r.password| == Size - base
    ensures r.Generated? ==> r.password == Concat(r.runs)
    ensures r.Generated? ==> forall k :: 0 <= k < |r.runs| ==> RunFrom(r.runs[k], classes)
    ensures !r.RanOutOfCharacters?
    decreases |tape|
  {
    if base >= Size then Generated("", [])
    else
      match Intn(|classes|, tape)
      case None => OutOfEntropy
      case Some(pick) =>
        var c := classes[pick.value];
        match ChooseRun(c, pick.rest, base, Size + 1)
        case None => OutOfEntropy
        case Some(chosen) =>
          match RemoveSpent(classes, pick.value, chosen.remove)
          case None => RanOutOfCharacters
          case Some(left) =>
            Resume(chosen.run, [Run(c, chosen.run)], Loop(left, base + chosen.total, chosen.rest))
  }

  /** A rune the configuration lets into a password. */
  predicate Enabled(config: Config, ch: char)
  {
    ch in LowerCaseClass() || ch in UpperCaseClass() || ch in DigitClass() || (config.allowSpecial && ch in SpecialClass())
  }

  /** `GeneratePasswordWithConfig`, as a function of the random tape: the
      loop from an empty buffer on the classes the configuration enables.
      The loop is `Loop`; the Go code's `for` over `base` is its recursion. */
  function GeneratePasswordWithConfig(config: Config, tape: Tape): (r: GenResult)
    ensures r.Generated? ==> |r.password| == Size && r.password == Concat(r.runs)
    ensures r.Generated? ==> forall k :: 0 <= k < |r.runs| ==> RunFrom(r.runs[k], InitialClasses(config))
    ensures !r.RanOutOfCharacters?
  {
    Loop(InitialClasses(config), 0, tape)
  }

  /** `GeneratePassword`: generation with the special runes allowed. */
  function GeneratePassword(tape: Tape): (r: GenResult)
    ensures r.Generated? ==> |r.password| == Size && r.password == Concat(r.runs)
    ensures r.Generated? ==> forall k :: 0 <= k < |r.runs| ==> RunFrom(r.runs[k], InitialClasses(Config(true)))
    ensures !r.RanOutOfCharacters?
  {
    GeneratePasswordWithConfig(Config(true), tape)
  }

  /** The outcome of a loop that has already written `output` as `runs`. */
  function Resume(output: string, runs: seq<Run>, rest: GenResult): GenResult
  {
    match rest
    case Generated(p, rs) => Generated(output + p, runs + rs)
    case failure => failure
  }

  /** With all `Size` runes written the loop stops, whatever the tape. */
  lemma LoopAtEnd(classes: seq<ClassSpec>, tape: Tape)
    requires Usable(classes)
    ensures Loop(classes, Size, tape) == Generated("", [])
  {
  }

  /** One iteration of `Loop` that draws a run and keeps all classes. */
  lemma LoopStep(classes: seq<ClassSpec>, base: int, tape: Tape, pick: Draw, chosen: Chosen)
    requires Usable(classes) && 0 <= base < Size
    requires Intn(|classes|, tape) == Some(pick)
    requires ChooseRun(classes[pick.value], pick.rest, base, Size + 1) == Some(chosen)
    ensures Loop(classes, base, tape) == Resume(chosen.run, [Run(classes[pick.value], chosen.run)], Loop(classes, base + chosen.total, chosen.rest))
  {
    var c := classes[pick.value];
    assert ChooseRun(c, pick.rest, base, Size + 1) == Some(chosen);
    assert RemoveSpent(classes, pick.value, chosen.remove) == Some(classes);
  }
}
