/** Model of the password generator of passgen.js: request validation, the
    weighted index space built from the enabled character classes, the
    mapping of a random index to a character, the composition checker and
    the rejection loop that retries until a candidate passes it.

    `Math.random()` is replaced by an injected stream of integer draws:
    `rand(k)` is the value of `Math.floor(Math.random() * globalLen)` at the
    k-th call. */
module PassGen {

  // ---------------------------------------------------------------------
  // Constants
  // ---------------------------------------------------------------------

  /** The symbol alphabet; its first character, the backtick, is also what an
      empty index space produces. */
  const Symbols: string := "`~!@#$%^&*()_+[]{}|;':\",./<>?"
  const LowerCaseLetters: string := "qwertyuiopasdfghjklzxcvbnm"
  const UpperCaseLetters: string := "QWERTYUIOPASDFGHJKLZXCVBNM"
  /** The digit alphabet, with `0` last. */
  const Numbers: string := "1234567890"

  const LowerFactor: nat := 3
  const UpperFactor: nat := 3
  const NumFactor: nat := 2
  const SymbolsFactor: nat := 1

  /** Longest length `generate` lets through. */
  const MaxLength: int := 1000
  /** `Too many iterations` is raised once the rejection counter exceeds this. */
  const MaxIterations: nat := 100

  // ---------------------------------------------------------------------
  // Data model
  // ---------------------------------------------------------------------

  datatype CharClass = Lower | Upper | Digit | Symbol

  /** What the form supplies: the length and the four check boxes. */
  datatype Request = Request(len: int, lower: bool, upper: bool, nums: bool, symbols: bool)

  /** What `generate` ends with: a password, or one of its error messages. */
  datatype Outcome =
    | Ok(pw: string)
    | InvalidLength      // "Invalid length value."
    | LengthTooHigh      // "Length too high"
    | LengthTooShort     // "Password length too short."
    | TooManyIterations  // "Too many iterations."

  /** The cumulative boundaries of the weighted index space. */
  datatype Bounds = Bounds(lowerLast: nat, upperLast: nat, numsLast: nat, globalLen: nat)

  function Alphabet(c: CharClass): string
  {
    match c
    case Lower => LowerCaseLetters
    case Upper => UpperCaseLetters
    case Digit => Numbers
    case Symbol => Symbols
  }

  function Factor(c: CharClass): nat
  {
    match c
    case Lower => LowerFactor
    case Upper => UpperFactor
    case Digit => NumFactor
    case Symbol => SymbolsFactor
  }

  /** Number of slots a class occupies in the index space when it is enabled. */
  function Span(c: CharClass): nat
  {
    |Alphabet(c)| * Factor(c)
  }

  predicate Enabled(r: Request, c: CharClass)
  {
    match c
    case Lower => r.lower
    case Upper => r.upper
    case Digit => r.nums
    case Symbol => r.symbols
  }

  /** `minLen`: the booleans coerced to numbers and summed. */
  function MinLen(r: Request): (n: nat)
    ensures n <= 4
  {
    (if r.lower then 1 else 0) + (if r.upper then 1 else 0)
    + (if r.nums then 1 else 0) + (if r.symbols then 1 else 0)
  }

  /** `minLen` counts the enabled classes: it is 0 exactly when none is
      enabled and 4 exactly when all are. */
  lemma MinLenCountsClasses(r: Request)
    ensures MinLen(r) == |EnabledClasses(r)|
    ensures MinLen(r) == 0 <==> forall c :: !Enabled(r, c)
    ensures MinLen(r) == 4 <==> forall c :: Enabled(r, c)
  {
    assert Enabled(r, Lower) == r.lower && Enabled(r, Upper) == r.upper;
    assert Enabled(r, Digit) == r.nums && Enabled(r, Symbol) == r.symbols;
    EnabledClassesCount(r);
  }

  /** The enabled classes, counted one check box at a time. */
  lemma EnabledClassesCount(r: Request)
    ensures |EnabledClasses(r)| == MinLen(r)
  {
    EnabledClassesSplit(r);
    var lo, up, nu, sy := OptClass(Lower, r.lower), OptClass(Upper, r.upper), OptClass(Digit, r.nums), OptClass(Symbol, r.symbols);
    DisjointCard(lo, up);
    DisjointCard(lo + up, nu);
    DisjointCard(lo + up + nu, sy);
  }

  /** The enabled classes are the union of one optional class per check box. */
  lemma EnabledClassesSplit(r: Request)
    ensures EnabledClasses(r)
            == OptClass(Lower, r.lower) + OptClass(Upper, r.upper) + OptClass(Digit, r.nums) + OptClass(Symbol, r.symbols)
  {
    var lo, up, nu, sy := OptClass(Lower, r.lower), OptClass(Upper, r.upper), OptClass(Digit, r.nums), OptClass(Symbol, r.symbols);
    forall c: CharClass
      ensures c in EnabledClasses(r) <==> c in lo + up + nu + sy
    {
      assert c in EnabledClasses(r) <==> Enabled(r, c);
    }
  }

  /** `{c}` when `b` holds, `{}` otherwise. */
  function OptClass(c: CharClass, b: bool): set<CharClass>
  {
    if b then {c} else {}
  }

  lemma DisjointCard(s: set<CharClass>, t: set<CharClass>)
    requires s !! t
    ensures |s + t| == |s| + |t|
  {
  }

  /** The classes whose check box is ticked. */
  function EnabledClasses(r: Request): set<CharClass>
  {
    set c: CharClass | Enabled(r, c)
  }

  // ---------------------------------------------------------------------
  // Character classification (checkPassword's range tests)
  // ---------------------------------------------------------------------

  /** The flag `checkPassword` sets for one character, by its code point. */
  function Classify(ch: char): (c: CharClass)
    ensures c == Digit <==> '0' <= ch <= '9'
    ensures c == Upper <==> 'A' <= ch <= 'Z'
    ensures c == Lower <==> 'a' <= ch <= 'z'
  {
    var code := ch as int;
    if code >= 48 then
      if code <= 57 then Digit
      else if code >= 65 then
        if code <= 90 then Upper
        else if code >= 97 && code <= 122 then Lower
        else Symbol
      else Symbol
    else Symbol
  }

  /** Every character of a generation alphabet is classified as its own class,
      and no alphabet repeats a character. */
  lemma AlphabetsConsistent(c: CharClass)
    ensures forall j :: 0 <= j < |Alphabet(c)| ==> Classify(Alphabet(c)[j]) == c
    ensures forall i, j :: 0 <= i < j < |Alphabet(c)| ==> Alphabet(c)[i] != Alphabet(c)[j]
    ensures |Alphabet(c)| == match c
                              case Lower => 26
                              case Upper => 26
                              case Digit => 10
                              case Symbol => 29
  {
    match c
    case Lower => LowerAlphabetConsistent();
    case Upper => UpperAlphabetConsistent();
    case Digit => DigitAlphabetConsistent();
    case Symbol => SymbolAlphabetConsistent();
  }

  lemma LowerAlphabetConsistent()
    ensures |LowerCaseLetters| == 26
    ensures forall j :: 0 <= j < |LowerCaseLetters| ==> 'a' <= LowerCaseLetters[j] <= 'z'
    ensures forall i, j :: 0 <= i < j < |LowerCaseLetters| ==> LowerCaseLetters[i] != LowerCaseLetters[j]
  {
  }

  lemma UpperAlphabetConsistent()
    ensures |UpperCaseLetters| == 26
    ensures forall j :: 0 <= j < |UpperCaseLetters| ==> 'A' <= UpperCaseLetters[j] <= 'Z'
    ensures forall i, j :: 0 <= i < j < |UpperCaseLetters| ==> UpperCaseLetters[i] != UpperCaseLetters[j]
  {
  }

  lemma DigitAlphabetConsistent()
    ensures |Numbers| == 10
    ensures forall j :: 0 <= j < |Numbers| ==> '0' <= Numbers[j] <= '9'
    ensures forall i, j :: 0 <= i < j < |Numbers| ==> Numbers[i] != Numbers[j]
  {
  }

  lemma SymbolAlphabetConsistent()
    ensures |Symbols| == 29
    ensures forall j :: 0 <= j < |Symbols| ==> Classify(Symbols[j]) == Symbol
    ensures forall i, j :: 0 <= i < j < |Symbols| ==> Symbols[i] != Symbols[j]
  {
    SymbolsAreSymbols();
    SymbolsDistinct();
  }

  lemma SymbolsAreSymbols()
    ensures |Symbols| == 29
    ensures forall j :: 0 <= j < |Symbols| ==> Classify(Symbols[j]) == Symbol
  {
  }

  lemma SymbolsDistinct()
    ensures forall i, j :: 0 <= i < j < |Symbols| ==> Symbols[i] != Symbols[j]
  {
  }

  /** A character of the generation alphabet of `c` identifies both `c` and its
      position in that alphabet. */
  lemma {:induction false} AlphabetCharUnique(c: CharClass, j: nat, c': CharClass, j': nat)
    requires j < |Alphabet(c)| && j' < |Alphabet(c')|
    requires Alphabet(c)[j] == Alphabet(c')[j']
    ensures c == c' && j == j'
  {
    AlphabetsConsistent(c);
    AlphabetsConsistent(c');
  }

  // ---------------------------------------------------------------------
  // Weighted index space
  // ---------------------------------------------------------------------

  /** `lowerLastNb`, `upperLastNb`, `numsLastNb` and `globalLen`. */
  function ComputeBounds(r: Request): (b: Bounds)
    ensures 0 <= b.lowerLast <= b.upperLast <= b.numsLast <= b.globalLen <= 205
    ensures Start(b, Lower) == 0 && End(b, Symbol) == b.globalLen
    ensures End(b, Lower) == Start(b, Upper) && End(b, Upper) == Start(b, Digit)
            && End(b, Digit) == Start(b, Symbol)
    ensures b.globalLen == 0 <==> MinLen(r) == 0
  {
    var lowerLast := if r.lower then |LowerCaseLetters| * LowerFactor else 0;
    var upperLast := if r.upper then lowerLast + |UpperCaseLetters| * UpperFactor else lowerLast;
    var numsLast := if r.nums then upperLast + |Numbers| * NumFactor else upperLast;
    var globalLen := if r.symbols then numsLast + |Symbols| * SymbolsFactor else numsLast;
    Bounds(lowerLast, upperLast, numsLast, globalLen)
  }

  /** Each class occupies `|alphabet| * factor` slots when enabled, none otherwise. */
  lemma SlotSizes(r: Request, c: CharClass)
    ensures End(ComputeBounds(r), c) - Start(ComputeBounds(r), c) == if Enabled(r, c) then Span(c) else 0
    ensures Span(c) == match c
                         case Lower => 78
                         case Upper => 78
                         case Digit => 20
                         case Symbol => 29
  {
  }

  /** First index of the slots of class `c`. */
  function Start(b: Bounds, c: CharClass): nat
  {
    match c
    case Lower => 0
    case Upper => b.lowerLast
    case Digit => b.upperLast
    case Symbol => b.numsLast
  }

  /** One past the last index of the slots of class `c`. */
  function End(b: Bounds, c: CharClass): nat
  {
    match c
    case Lower => b.lowerLast
    case Upper => b.upperLast
    case Digit => b.numsLast
    case Symbol => b.globalLen
  }

  /** The values `Math.floor(Math.random() * globalLen)` can take: `0` to
      `globalLen - 1`, and only `0` when `globalLen` is 0. */
  function DrawRange(r: Request): (n: nat)
    ensures n >= 1
    ensures ComputeBounds(r).globalLen > 0 ==> n == ComputeBounds(r).globalLen
  {
    var g := ComputeBounds(r).globalLen;
    if g == 0 then 1 else g
  }

  /** Which branch of the `if` chain an index takes. */
  function ClassOfIndex(r: Request, idx: nat): CharClass
  {
    var b := ComputeBounds(r);
    if idx < b.lowerLast then Lower
    else if idx < b.upperLast then Upper
    else if idx < b.numsLast then Digit
    else Symbol
  }

  /** The character appended for one draw. */
  function IndexToChar(r: Request, idx: nat): char
    requires idx < DrawRange(r)
  {
    var b := ComputeBounds(r);
    if idx < b.lowerLast then LowerCaseLetters[idx / LowerFactor]
    else if idx < b.upperLast then UpperCaseLetters[(idx - b.lowerLast) / UpperFactor]
    else if idx < b.numsLast then Numbers[(idx - b.upperLast) / NumFactor]
    else Symbols[(idx - b.numsLast) / SymbolsFactor]
  }

  /** `ch` is one of the characters of the alphabet of `c`. */
  predicate InAlphabet(ch: char, c: CharClass)
  {
    exists j :: 0 <= j < |Alphabet(c)| && Alphabet(c)[j] == ch
  }

  /** Every index of the weighted space falls in the slots of an enabled class
      and maps to a character of that class's alphabet, which the classifier
      recognises as that class. */
  lemma IndexInEnabledAlphabet(r: Request, idx: nat)
    requires idx < ComputeBounds(r).globalLen
    ensures Enabled(r, ClassOfIndex(r, idx))
    ensures Start(ComputeBounds(r), ClassOfIndex(r, idx)) <= idx < End(ComputeBounds(r), ClassOfIndex(r, idx))
    ensures InAlphabet(IndexToChar(r, idx), ClassOfIndex(r, idx))
    ensures Classify(IndexToChar(r, idx)) == ClassOfIndex(r, idx)
  {
    IndexInEnabledSlots(r, idx);
    IndexAtPosition(r, idx);
    AlphabetsConsistent(ClassOfIndex(r, idx));
  }

  /** Every index of the weighted space lies in the slots of an enabled class. */
  lemma IndexInEnabledSlots(r: Request, idx: nat)
    requires idx < ComputeBounds(r).globalLen
    ensures Enabled(r, ClassOfIndex(r, idx))
    ensures Start(ComputeBounds(r), ClassOfIndex(r, idx)) <= idx < End(ComputeBounds(r), ClassOfIndex(r, idx))
  {
  }

  /** Position within its class's alphabet of the character an index maps to. */
  function Position(r: Request, idx: nat): nat
  {
    var c := ClassOfIndex(r, idx);
    (idx - Start(ComputeBounds(r), c)) / Factor(c)
  }

  lemma IndexAtPosition(r: Request, idx: nat)
    requires idx < ComputeBounds(r).globalLen
    ensures Position(r, idx) < |Alphabet(ClassOfIndex(r, idx))|
    ensures IndexToChar(r, idx) == Alphabet(ClassOfIndex(r, idx))[Position(r, idx)]
  {
    var b := ComputeBounds(r);
    if idx < b.lowerLast {
      LowerIndexAtPosition(r, idx);
    } else if idx < b.upperLast {
      UpperIndexAtPosition(r, idx);
    } else if idx < b.numsLast {
      DigitIndexAtPosition(r, idx);
    } else {
      SymbolIndexAtPosition(r, idx);
    }
  }

  lemma LowerIndexAtPosition(r: Request, idx: nat)
    requires idx < ComputeBounds(r).lowerLast
    ensures ClassOfIndex(r, idx) == Lower && Position(r, idx) == idx / LowerFactor < |LowerCaseLetters|
    ensures IndexToChar(r, idx) == LowerCaseLetters[Position(r, idx)]
  {
    LowerAlphabetConsistent();
  }

  lemma UpperIndexAtPosition(r: Request, idx: nat)
    requires ComputeBounds(r).lowerLast <= idx < ComputeBounds(r).upperLast
    ensures ClassOfIndex(r, idx) == Upper
    ensures Position(r, idx) == (idx - ComputeBounds(r).lowerLast) / UpperFactor < |UpperCaseLetters|
    ensures IndexToChar(r, idx) == UpperCaseLetters[Position(r, idx)]
  {
    UpperAlphabetConsistent();
    var b := ComputeBounds(r);
    assert r.upper && b.upperLast == b.lowerLast + 78;
    assert (idx - b.lowerLast) / UpperFactor < 26;
  }

  lemma DigitIndexAtPosition(r: Request, idx: nat)
    requires ComputeBounds(r).upperLast <= idx < ComputeBounds(r).numsLast
    ensures ClassOfIndex(r, idx) == Digit
    ensures Position(r, idx) == (idx - ComputeBounds(r).upperLast) / NumFactor < |Numbers|
    ensures IndexToChar(r, idx) == Numbers[Position(r, idx)]
  {
    DigitAlphabetConsistent();
  }

  lemma SymbolIndexAtPosition(r: Request, idx: nat)
    requires ComputeBounds(r).numsLast <= idx < ComputeBounds(r).globalLen
    ensures ClassOfIndex(r, idx) == Symbol
    ensures Position(r, idx) == idx - ComputeBounds(r).numsLast < |Symbols|
    ensures IndexToChar(r, idx) == Symbols[Position(r, idx)]
  {
    SymbolAlphabetConsistent();
  }

  /** With no class enabled the only draw is 0, and it yields the backtick. */
  lemma EmptySpaceYieldsBacktick(r: Request, idx: nat)
    requires MinLen(r) == 0 && idx < DrawRange(r)
    ensures idx == 0 && IndexToChar(r, idx) == '`'
  {
  }

  /** The characters one draw can produce: the enabled alphabets, or the
      backtick alone when no class is enabled. */
  predicate Allowed(r: Request, ch: char)
  {
    if MinLen(r) == 0 then ch == '`'
    else exists c :: Enabled(r, c) && InAlphabet(ch, c)
  }

  /** Every character of `pw` is one a draw can produce. */
  predicate AllAllowed(r: Request, pw: string)
  {
    forall i :: 0 <= i < |pw| ==> Allowed(r, pw[i])
  }

  lemma DrawAllowed(r: Request, idx: nat)
    requires idx < DrawRange(r)
    ensures Allowed(r, IndexToChar(r, idx))
  {
    if MinLen(r) > 0 {
      IndexInEnabledAlphabet(r, idx);
    }
  }

  /** An index inside the (non-empty) slots of `c` takes the branch of `c`. */
  lemma ClassOfSlot(r: Request, c: CharClass, idx: nat)
    requires Start(ComputeBounds(r), c) <= idx < End(ComputeBounds(r), c)
    ensures ClassOfIndex(r, idx) == c
  {
  }

  /** The `j`-th character of an enabled alphabet is produced by exactly the
      `Factor(c)` consecutive indices starting at `Start(c) + j * Factor(c)`. */
  lemma CharPreimages(r: Request, c: CharClass, j: nat, idx: nat)
    requires Enabled(r, c) && j < |Alphabet(c)|
    requires idx < ComputeBounds(r).globalLen
    ensures IndexToChar(r, idx) == Alphabet(c)[j]
        <==> Start(ComputeBounds(r), c) + j * Factor(c) <= idx < Start(ComputeBounds(r), c) + (j + 1) * Factor(c)
  {
    if IndexToChar(r, idx) == Alphabet(c)[j] {
      PreimageInBlock(r, c, j, idx);
    }
    if Start(ComputeBounds(r), c) + j * Factor(c) <= idx < Start(ComputeBounds(r), c) + (j + 1) * Factor(c) {
      BlockMapsToChar(r, c, j, idx);
    }
  }

  lemma PreimageInBlock(r: Request, c: CharClass, j: nat, idx: nat)
    requires j < |Alphabet(c)| && idx < ComputeBounds(r).globalLen
    requires IndexToChar(r, idx) == Alphabet(c)[j]
    ensures Start(ComputeBounds(r), c) + j * Factor(c) <= idx < Start(ComputeBounds(r), c) + (j + 1) * Factor(c)
  {
    CharIdentifiesSlot(r, c, j, idx);
    QuotientBlock(Start(ComputeBounds(r), c), idx, Factor(c), j);
  }

  /** An offset from `start` whose quotient by `d` is `j` lies in the `j`-th
      block of `d` indices after `start`. */
  lemma QuotientBlock(start: nat, idx: nat, d: nat, j: nat)
    requires 1 <= d <= 3 && start <= idx && (idx - start) / d == j
    ensures start + j * d <= idx < start + (j + 1) * d
  {
    DivBounds(idx - start, d, j);
  }

  /** An index that produces the `j`-th character of alphabet `c` takes the
      branch of `c` and lands on position `j`. */
  lemma CharIdentifiesSlot(r: Request, c: CharClass, j: nat, idx: nat)
    requires j < |Alphabet(c)| && idx < ComputeBounds(r).globalLen
    requires IndexToChar(r, idx) == Alphabet(c)[j]
    ensures ClassOfIndex(r, idx) == c && Position(r, idx) == j
    ensures Start(ComputeBounds(r), c) <= idx && (idx - Start(ComputeBounds(r), c)) / Factor(c) == j
  {
    IndexAtPosition(r, idx);
    IndexInEnabledSlots(r, idx);
    AlphabetCharUnique(c, j, ClassOfIndex(r, idx), Position(r, idx));
  }

  lemma BlockMapsToChar(r: Request, c: CharClass, j: nat, idx: nat)
    requires Enabled(r, c) && j < |Alphabet(c)|
    requires Start(ComputeBounds(r), c) + j * Factor(c) <= idx < Start(ComputeBounds(r), c) + (j + 1) * Factor(c)
    ensures idx < ComputeBounds(r).globalLen && IndexToChar(r, idx) == Alphabet(c)[j]
  {
    var b := ComputeBounds(r);
    BlockWithinSlots(r, c, j);
    assert ClassOfIndex(r, idx) == c by {
      ClassOfSlot(r, c, idx);
    }
    assert Position(r, idx) == j by {
      DivBounds(idx - Start(b, c), Factor(c), j);
    }
    IndexAtPosition(r, idx);
  }

  /** The block of the `j`-th character lies inside the slots of its class. */
  lemma BlockWithinSlots(r: Request, c: CharClass, j: nat)
    requires Enabled(r, c) && j < |Alphabet(c)|
    ensures Start(ComputeBounds(r), c) + (j + 1) * Factor(c) <= End(ComputeBounds(r), c) <= ComputeBounds(r).globalLen
  {
    SlotSizes(r, c);
    var f := Factor(c);
    assert 1 <= f <= 3;
    assert (j + 1) * f <= |Alphabet(c)| * f;
  }

  /** `q == x / d` exactly when `q * d <= x < (q + 1) * d`, for the factors in use. */
  lemma DivBounds(x: nat, d: nat, q: nat)
    requires 1 <= d <= 3
    ensures x / d == q <==> q * d <= x < (q + 1) * d
  {
    if d == 1 {
    } else if d == 2 {
    } else {
    }
  }

  /** The indices of the weighted space that map to `ch`. */
  function Preimages(r: Request, ch: char): set<nat>
  {
    set idx: nat | idx < ComputeBounds(r).globalLen && IndexToChar(r, idx) == ch
  }

  /** Membership in the preimages of the `j`-th character of an enabled
      alphabet is membership in its block of `Factor(c)` indices. */
  lemma PreimagesInBlock(r: Request, c: CharClass, j: nat)
    requires Enabled(r, c) && j < |Alphabet(c)|
    ensures forall idx: nat :: idx in Preimages(r, Alphabet(c)[j]) <==>
              Start(ComputeBounds(r), c) + j * Factor(c) <= idx < Start(ComputeBounds(r), c) + (j + 1) * Factor(c)
  {
    var b := ComputeBounds(r);
    BlockWithinSlots(r, c, j);
    forall idx: nat
      ensures idx in Preimages(r, Alphabet(c)[j]) <==>
              Start(b, c) + j * Factor(c) <= idx < Start(b, c) + (j + 1) * Factor(c)
    {
      if idx < b.globalLen {
        CharPreimages(r, c, j, idx);
      }
    }
  }

  /** The preimages of the `j`-th character of an enabled alphabet are the
      `Factor(c)` consecutive indices starting at `Start(c) + j * Factor(c)`. */
  lemma PreimagesAreBlock(r: Request, c: CharClass, j: nat)
    requires Enabled(r, c) && j < |Alphabet(c)|
    ensures Preimages(r, Alphabet(c)[j])
            == IntRange(Start(ComputeBounds(r), c) + j * Factor(c), Start(ComputeBounds(r), c) + (j + 1) * Factor(c))
  {
    PreimagesInBlock(r, c, j);
    var lo := Start(ComputeBounds(r), c) + j * Factor(c);
    var hi := Start(ComputeBounds(r), c) + (j + 1) * Factor(c);
    assert Preimages(r, Alphabet(c)[j]) == IntRange(lo, hi);
  }

  /** Each character of an enabled alphabet has exactly `Factor(c)` preimages
      in the weighted index space. */
  lemma PreimageCount(r: Request, c: CharClass, j: nat)
    requires Enabled(r, c) && j < |Alphabet(c)|
    ensures |Preimages(r, Alphabet(c)[j])| == Factor(c)
  {
    PreimagesInBlock(r, c, j);
    var start, f := Start(ComputeBounds(r), c), Factor(c);
    NextMultiple(j, f);
    CardOfRange(Preimages(r, Alphabet(c)[j]), start + j * f, start + (j + 1) * f);
  }

  lemma NextMultiple(j: nat, f: nat)
    ensures (j + 1) * f == j * f + f
  {
  }

  /** A set of naturals that is exactly `lo` to `hi - 1` has `hi - lo` elements. */
  lemma CardOfRange(s: set<nat>, lo: nat, hi: nat)
    requires lo <= hi
    requires forall i: nat :: i in s <==> lo <= i < hi
    ensures |s| == hi - lo
  {
    assert s == IntRange(lo, hi);
    IntRangeCard(lo, hi);
  }

  /** The integers from `lo` up to, not including, `hi`. */
  function IntRange(lo: nat, hi: nat): (s: set<nat>)
    ensures forall i :: i in s <==> lo <= i < hi
    decreases hi - lo
  {
    if lo < hi then {lo} + IntRange(lo + 1, hi) else {}
  }

  lemma {:induction false} IntRangeCard(lo: nat, hi: nat)
    requires lo <= hi
    ensures |IntRange(lo, hi)| == hi - lo
    decreases hi - lo
  {
    if lo < hi {
      IntRangeCard(lo + 1, hi);
      assert IntRange(lo, hi) == {lo} + IntRange(lo + 1, hi);
    } else {
      assert IntRange(lo, hi) == {};
    }
  }

  // ---------------------------------------------------------------------
  // Composition check
  // ---------------------------------------------------------------------

  /** Some character of `pw` is classified as `c`. */
  predicate HasClass(pw: string, c: CharClass)
  {
    exists i :: 0 <= i < |pw| && Classify(pw[i]) == c
  }

  /** What `checkPassword` accepts: every enabled class occurs in `pw`. */
  predicate Compliant(r: Request, pw: string)
  {
    forall c :: Enabled(r, c) ==> HasClass(pw, c)
  }

  /** `checkPassword`: one scan setting four flags, then the four tests. */
  method CheckPassword(r: Request, pw: string) returns (ok: bool)
    ensures ok <==> Compliant(r, pw)
  {
    var hasLowerCase, hasUpperCase, hasNumber, hasSymbol := false, false, false, false;
    for i := 0 to |pw|
      invariant hasLowerCase == HasClass(pw[..i], Lower)
      invariant hasUpperCase == HasClass(pw[..i], Upper)
      invariant hasNumber == HasClass(pw[..i], Digit)
      invariant hasSymbol == HasClass(pw[..i], Symbol)
    {
      assert pw[..i + 1] == pw[..i] + [pw[i]];
      var charCode := pw[i] as int;
      if charCode >= 48 {
        if charCode <= 57 {
          hasNumber := true;
        } else if charCode >= 65 {
          if charCode <= 90 {
            hasUpperCase := true;
          } else if charCode >= 97 && charCode <= 122 {
            hasLowerCase := true;
          } else {
            hasSymbol := true;
          }
        } else {
          hasSymbol := true;
        }
      } else {
        hasSymbol := true;
      }
    }
    assert pw[..|pw|] == pw;
    if !hasNumber && r.nums {
      return false;
    }
    if !hasSymbol && r.symbols {
      return false;
    }
    if !hasLowerCase && r.lower {
      return false;
    }
    if !hasUpperCase && r.upper {
      return false;
    }
    return true;
  }

  // ---------------------------------------------------------------------
  // Generation
  // ---------------------------------------------------------------------

  /** The draw stream stays within what `Math.floor(Math.random() * globalLen)`
      can return. */
  ghost predicate ValidSource(r: Request, rand: nat -> nat)
  {
    forall k: nat :: rand(k) < DrawRange(r)
  }

  /** Number of calls to the random source made by the first `k` attempts. */
  function DrawsBefore(k: nat, len: nat): nat
  {
    if k == 0 then 0 else DrawsBefore(k - 1, len) + len
  }

  /** Every attempt takes exactly `len` draws. */
  lemma {:induction false} DrawsBeforeIsProduct(k: nat, len: nat)
    ensures DrawsBefore(k, len) == k * len
  {
    if k > 0 {
      DrawsBeforeIsProduct(k - 1, len);
    }
  }

  /** The draws taken at attempt `k` (0-based): calls `k * len` to
      `k * len + len - 1` of the random source. */
  function Draws(r: Request, rand: nat -> nat, k: nat): (d: seq<nat>)
    requires r.len >= 0 && ValidSource(r, rand)
    ensures |d| == r.len
    ensures forall i :: 0 <= i < |d| ==> d[i] < DrawRange(r)
  {
    var start := DrawsBefore(k, r.len);
    seq(r.len, (i: int) requires 0 <= i < r.len => rand(start + i))
  }

  /** The candidate built at attempt `k`: one character per draw. */
  function Candidate(r: Request, rand: nat -> nat, k: nat): (pw: string)
    requires r.len >= 0 && ValidSource(r, rand)
    ensures |pw| == r.len
  {
    var d := Draws(r, rand, k);
    seq(r.len, i requires 0 <= i < r.len => IndexToChar(r, d[i]))
  }

  /** Every character of a candidate is one a draw can produce. */
  lemma CandidateAllowed(r: Request, rand: nat -> nat, k: nat)
    requires r.len >= 0 && ValidSource(r, rand)
    ensures AllAllowed(r, Candidate(r, rand, k))
  {
    var pw, d := Candidate(r, rand, k), Draws(r, rand, k);
    forall i | 0 <= i < |pw|
      ensures Allowed(r, pw[i])
    {
      DrawAllowed(r, d[i]);
    }
  }

  /** The rejection loop from attempt `k` on: the first compliant candidate,
      or `TooManyIterations` once attempt `MaxIterations` is rejected. */
  function Attempts(r: Request, rand: nat -> nat, k: nat): Outcome
    requires r.len >= 0 && ValidSource(r, rand) && k <= MaxIterations
    decreases MaxIterations - k
  {
    if Accepted(r, rand, k) then Ok(Candidate(r, rand, k))
    else if k + 1 > MaxIterations then TooManyIterations
    else Attempts(r, rand, k + 1)
  }

  /** `generatePassword`. */
  function PasswordOutcome(r: Request, rand: nat -> nat): Outcome
    requires ValidSource(r, rand)
  {
    if r.len < MinLen(r) then LengthTooShort
    else Attempts(r, rand, 0)
  }

  /** `generate`: the two length tests, then `generatePassword`. */
  function GenerateOutcome(r: Request, rand: nat -> nat): Outcome
    requires ValidSource(r, rand)
  {
    if r.len == 0 then InvalidLength
    else if r.len > MaxLength then LengthTooHigh
    else PasswordOutcome(r, rand)
  }

  /** Candidate `a` passes the composition check. */
  predicate Accepted(r: Request, rand: nat -> nat, a: nat)
    requires r.len >= 0 && ValidSource(r, rand)
  {
    Compliant(r, Candidate(r, rand, a))
  }

  /** A rejected attempt before the last one hands over to the next attempt. */
  lemma AttemptsSkip(r: Request, rand: nat -> nat, k: nat)
    requires r.len >= 0 && ValidSource(r, rand) && k < MaxIterations
    requires !Accepted(r, rand, k)
    ensures Attempts(r, rand, k) == Attempts(r, rand, k + 1)
  {
  }

  /** An accepted attempt ends the loop with its candidate. */
  lemma AttemptsStop(r: Request, rand: nat -> nat, k: nat)
    requires r.len >= 0 && ValidSource(r, rand) && k <= MaxIterations
    requires Accepted(r, rand, k)
    ensures Attempts(r, rand, k) == Ok(Candidate(r, rand, k))
  {
  }

  /** The loop ends in a compliant password or in `TooManyIterations`. */
  lemma {:induction false} AttemptsOutcomes(r: Request, rand: nat -> nat, k: nat)
    requires r.len >= 0 && ValidSource(r, rand) && k <= MaxIterations
    ensures Attempts(r, rand, k).Ok? || Attempts(r, rand, k) == TooManyIterations
    ensures Attempts(r, rand, k).Ok? ==> Compliant(r, Attempts(r, rand, k).pw)
    decreases MaxIterations - k
  {
    if !Accepted(r, rand, k) && k < MaxIterations {
      assert Attempts(r, rand, k) == Attempts(r, rand, k + 1);
      AttemptsOutcomes(r, rand, k + 1);
    }
  }

  /** The loop returns the first accepted candidate among attempts `k` to
      `MaxIterations`. */
  lemma AttemptsFirstAccepted(r: Request, rand: nat -> nat, k: nat, a: nat)
    requires r.len >= 0 && ValidSource(r, rand) && k <= a <= MaxIterations
    requires Accepted(r, rand, a)
    requires forall a' :: k <= a' < a ==> !Accepted(r, rand, a')
    ensures Attempts(r, rand, k) == Ok(Candidate(r, rand, a))
  {
    RejectedBetweenIff(r, rand, k, a);
    AttemptsPassOver(r, rand, k, a);
    AttemptsStop(r, rand, a);
  }

  /** Attempts `k` to `a - 1` are all rejected. */
  predicate RejectedBetween(r: Request, rand: nat -> nat, k: nat, a: nat)
    requires r.len >= 0 && ValidSource(r, rand)
    decreases a - k
  {
    k >= a || (!Accepted(r, rand, k) && RejectedBetween(r, rand, k + 1, a))
  }

  /** The recursive and the quantified forms of a rejected run agree. */
  lemma {:induction false} RejectedBetweenIff(r: Request, rand: nat -> nat, k: nat, a: nat)
    requires r.len >= 0 && ValidSource(r, rand)
    ensures RejectedBetween(r, rand, k, a) <==> forall a' :: k <= a' < a ==> !Accepted(r, rand, a')
    decreases a - k
  {
    if k < a {
      RejectedBetweenIff(r, rand, k + 1, a);
    }
  }

  /** Rejected attempts hand the loop over unchanged. */
  lemma {:induction false} AttemptsPassOver(r: Request, rand: nat -> nat, k: nat, a: nat)
    requires r.len >= 0 && ValidSource(r, rand) && k <= a <= MaxIterations
    requires RejectedBetween(r, rand, k, a)
    ensures Attempts(r, rand, k) == Attempts(r, rand, a)
    decreases a - k
  {
    if k < a {
      AttemptsSkip(r, rand, k);
      AttemptsPassOver(r, rand, k + 1, a);
    }
  }

  /** The loop fails exactly when attempts `k` to `MaxIterations` are all rejected. */
  lemma AttemptsExhausted(r: Request, rand: nat -> nat, k: nat)
    requires r.len >= 0 && ValidSource(r, rand) && k <= MaxIterations
    ensures Attempts(r, rand, k) == TooManyIterations <==>
              forall a :: k <= a <= MaxIterations ==> !Accepted(r, rand, a)
  {
    RejectedBetweenIff(r, rand, k, MaxIterations + 1);
    AttemptsExhaustedRun(r, rand, k);
  }

  /** The loop fails exactly when the run from `k` to `MaxIterations` is rejected. */
  lemma {:induction false} AttemptsExhaustedRun(r: Request, rand: nat -> nat, k: nat)
    requires r.len >= 0 && ValidSource(r, rand) && k <= MaxIterations
    ensures Attempts(r, rand, k) == TooManyIterations <==> RejectedBetween(r, rand, k, MaxIterations + 1)
    decreases MaxIterations - k
  {
    if k < MaxIterations {
      AttemptsExhaustedRun(r, rand, k + 1);
    }
  }

  /** Whatever candidate the loop returns has `len` drawable characters. */
  lemma {:induction false} AttemptsAllowed(r: Request, rand: nat -> nat, k: nat)
    requires r.len >= 0 && ValidSource(r, rand) && k <= MaxIterations
    ensures Attempts(r, rand, k).Ok? ==>
              |Attempts(r, rand, k).pw| == r.len && AllAllowed(r, Attempts(r, rand, k).pw)
    decreases MaxIterations - k
  {
    if Accepted(r, rand, k) {
      assert Attempts(r, rand, k) == Ok(Candidate(r, rand, k));
      CandidateAllowed(r, rand, k);
    } else if k < MaxIterations {
      assert Attempts(r, rand, k) == Attempts(r, rand, k + 1);
      AttemptsAllowed(r, rand, k + 1);
    }
  }

  /** What `generate` promises: the error cases exactly, and on success a
      compliant password of the requested length made of drawable characters. */
  lemma GenerateOutcomeSpec(r: Request, rand: nat -> nat)
    requires ValidSource(r, rand)
    ensures GenerateOutcome(r, rand) == InvalidLength <==> r.len == 0
    ensures GenerateOutcome(r, rand) == LengthTooHigh <==> r.len > MaxLength
    ensures GenerateOutcome(r, rand) == LengthTooShort <==> r.len < 0 || 0 < r.len < MinLen(r)
    ensures GenerateOutcome(r, rand) == TooManyIterations <==>
              MinLen(r) <= r.len <= MaxLength && r.len != 0
              && forall a :: 0 <= a <= MaxIterations ==> !Accepted(r, rand, a)
    ensures GenerateOutcome(r, rand).Ok? ==>
              var pw := GenerateOutcome(r, rand).pw;
              1 <= |pw| == r.len <= MaxLength && Compliant(r, pw) && AllAllowed(r, pw)
  {
    if r.len != 0 && r.len <= MaxLength && r.len >= MinLen(r) {
      AttemptsOutcomes(r, rand, 0);
      AttemptsExhausted(r, rand, 0);
      AttemptsAllowed(r, rand, 0);
    }
  }

  /** Attempt `k` draws at least one index from the slots of every enabled class. */
  predicate CoversClasses(r: Request, rand: nat -> nat, k: nat)
    requires r.len >= 0 && ValidSource(r, rand)
  {
    forall c :: Enabled(r, c) ==>
      exists i :: 0 <= i < r.len && ClassOfIndex(r, Draws(r, rand, k)[i]) == c
  }

  /** A candidate passes the check exactly when its attempt drew at least one
      index from the slots of every enabled class: the classifier's wider
      symbol test never accepts a candidate that drew no symbol slot. */
  lemma DrawsCoverClasses(r: Request, rand: nat -> nat, k: nat)
    requires r.len >= 0 && ValidSource(r, rand)
    ensures Accepted(r, rand, k) <==> CoversClasses(r, rand, k)
  {
    if CoversClasses(r, rand, k) {
      CoverSuffices(r, rand, k);
    }
    if Accepted(r, rand, k) {
      CoverNeeded(r, rand, k);
    }
  }

  /** A draw from an enabled class sets that class's flag. */
  lemma {:induction false} CoverSuffices(r: Request, rand: nat -> nat, k: nat)
    requires r.len >= 0 && ValidSource(r, rand) && CoversClasses(r, rand, k)
    ensures Accepted(r, rand, k)
  {
    var pw := Candidate(r, rand, k);
    forall c | Enabled(r, c)
      ensures HasClass(pw, c)
    {
      var i :| 0 <= i < r.len && ClassOfIndex(r, Draws(r, rand, k)[i]) == c;
      var idx := Draws(r, rand, k)[i];
      assert MinLen(r) > 0;
      IndexInEnabledAlphabet(r, idx);
      assert Classify(pw[i]) == c;
    }
  }

  /** A flag can only be set by a draw from the slots of its class. */
  lemma {:induction false} CoverNeeded(r: Request, rand: nat -> nat, k: nat)
    requires r.len >= 0 && ValidSource(r, rand) && Accepted(r, rand, k)
    ensures CoversClasses(r, rand, k)
  {
    var pw, d := Candidate(r, rand, k), Draws(r, rand, k);
    forall c | Enabled(r, c)
      ensures exists i :: 0 <= i < r.len && ClassOfIndex(r, d[i]) == c
    {
      assert HasClass(pw, c);
      var i :| 0 <= i < |pw| && Classify(pw[i]) == c;
      assert MinLen(r) > 0;
      IndexInEnabledAlphabet(r, d[i]);
      assert ClassOfIndex(r, d[i]) == c;
    }
  }

  /** With exactly one class enabled every draw falls in its slots, so the
      first candidate is accepted for every valid length. */
  lemma SingleClassFirstAccepted(r: Request, rand: nat -> nat, c: CharClass)
    requires ValidSource(r, rand) && 1 <= r.len <= MaxLength
    requires Enabled(r, c) && forall c' :: c' != c ==> !Enabled(r, c')
    ensures GenerateOutcome(r, rand) == Ok(Candidate(r, rand, 0))
  {
    MinLenCountsClasses(r);
    assert EnabledClasses(r) == {c};
    var idx := Draws(r, rand, 0)[0];
    IndexInEnabledAlphabet(r, idx);
    assert CoversClasses(r, rand, 0);
    CoverSuffices(r, rand, 0);
    AttemptsStop(r, rand, 0);
  }

  /** With no class enabled every draw is 0, every candidate is all
      backticks, and the first one is accepted. */
  lemma NoClassGivesBackticks(r: Request, rand: nat -> nat)
    requires ValidSource(r, rand) && MinLen(r) == 0
    requires 0 < r.len <= MaxLength
    ensures GenerateOutcome(r, rand) == Ok(seq(r.len, _ => '`'))
  {
    var pw := Candidate(r, rand, 0);
    forall i | 0 <= i < r.len
      ensures pw[i] == '`'
    {
      EmptySpaceYieldsBacktick(r, Draws(r, rand, 0)[i]);
    }
    assert pw == seq(r.len, _ => '`');
  }

  /** Four characters, all four classes, one draw per class: accepted. */
  lemma MinimumLengthCanSucceed()
    ensures var r := Request(4, true, true, true, true);
            var rand := (k: nat) => if k % 4 == 0 then 0 else if k % 4 == 1 then 78 else if k % 4 == 2 then 156 else 176;
            ValidSource(r, rand) && GenerateOutcome(r, rand) == Ok("qQ1`")
  {
    var r := Request(4, true, true, true, true);
    var rand := (k: nat) => if k % 4 == 0 then 0 else if k % 4 == 1 then 78 else if k % 4 == 2 then 156 else 176;
    assert ComputeBounds(r) == Bounds(78, 156, 176, 205);
    var pw := Candidate(r, rand, 0);
    assert pw == "qQ1`" by {
      assert pw[0] == 'q' && pw[1] == 'Q' && pw[2] == '1' && pw[3] == '`';
    }
    assert Classify(pw[0]) == Lower && Classify(pw[1]) == Upper;
    assert Classify(pw[2]) == Digit && Classify(pw[3]) == Symbol;
  }

  /** A source that always draws 0 yields only `q`, so with upper case
      required all 101 candidates are rejected. */
  lemma ConstantSourceExhausts()
    ensures var r := Request(10, true, true, false, false);
            var rand := (k: nat) => 0;
            ValidSource(r, rand) && GenerateOutcome(r, rand) == TooManyIterations
  {
    var r := Request(10, true, true, false, false);
    var rand := (k: nat) => 0;
    forall a | 0 <= a <= MaxIterations
      ensures !Compliant(r, Candidate(r, rand, a))
    {
      var pw := Candidate(r, rand, a);
      assert forall i :: 0 <= i < |pw| ==> pw[i] == 'q';
      assert !HasClass(pw, Upper);
    }
    GenerateOutcomeSpec(r, rand);
  }

  /** The `for` loop of `generatePassword`: `len` calls to the random source,
      starting at call `next`, each appending the character its index maps to. */
  method BuildCandidate(r: Request, rand: nat -> nat, iteration: nat, next: nat) returns (pw: string, next': nat)
    requires r.len >= 0 && ValidSource(r, rand) && next == DrawsBefore(iteration, r.len)
    ensures pw == Candidate(r, rand, iteration)
    ensures next' == DrawsBefore(iteration + 1, r.len)
  {
    ghost var draws := Draws(r, rand, iteration);
    pw := "";
    next' := next;
    for i := 0 to r.len
      invariant next' == next + i
      invariant |pw| == i
      invariant forall j :: 0 <= j < i ==> pw[j] == IndexToChar(r, draws[j])
    {
      var randomIdx := rand(next');
      assert randomIdx == draws[i];
      next' := next' + 1;
      pw := pw + [IndexToChar(r, randomIdx)];
    }
  }

  /** `generatePassword` as the source runs it: a `while (true)` loop with an
      iteration counter around the `for` loop that builds a candidate.
      `drawsUsed` counts the calls to the random source. */
  method GeneratePassword(r: Request, rand: nat -> nat) returns (res: Outcome, attempts: nat, drawsUsed: nat)
    requires ValidSource(r, rand)
    ensures res == PasswordOutcome(r, rand)
    ensures res.Ok? || res == LengthTooShort || res == TooManyIterations
    ensures res == LengthTooShort ==> attempts == 0
    ensures res != LengthTooShort ==> 1 <= attempts <= MaxIterations + 1
    ensures res == TooManyIterations ==> attempts == MaxIterations + 1
    ensures res.Ok? ==> res.pw == Candidate(r, rand, attempts - 1)
    ensures drawsUsed == attempts * (if r.len < 0 then 0 else r.len)
  {
    var minLen := MinLen(r);
    if r.len < minLen {
      return LengthTooShort, 0, 0;
    }
    var iteration: nat := 0;
    drawsUsed := 0;
    while true
      invariant iteration <= MaxIterations
      invariant drawsUsed == DrawsBefore(iteration, r.len)
      invariant Attempts(r, rand, iteration) == PasswordOutcome(r, rand)
      decreases MaxIterations - iteration
    {
      var pw;
      pw, drawsUsed := BuildCandidate(r, rand, iteration, drawsUsed);
      var ok := CheckPassword(r, pw);
      if ok {
        DrawsBeforeIsProduct(iteration + 1, r.len);
        return Ok(pw), iteration + 1, drawsUsed;
      }
      iteration := iteration + 1;
      if iteration > MaxIterations {
        DrawsBeforeIsProduct(iteration, r.len);
        return TooManyIterations, iteration, drawsUsed;
      }
    }
  }

  /** `generate` without its DOM wiring: the two length tests, then
      `generatePassword`. No draw is taken on any of the request errors. */
  method Generate(r: Request, rand: nat -> nat) returns (res: Outcome, attempts: nat, drawsUsed: nat)
    requires ValidSource(r, rand)
    ensures res == GenerateOutcome(r, rand)
    ensures res == InvalidLength || res == LengthTooHigh || res == LengthTooShort ==> attempts == 0
    ensures res == TooManyIterations ==> attempts == MaxIterations + 1
    ensures res.Ok? ==> 1 <= attempts <= MaxIterations + 1
    ensures drawsUsed == attempts * (if r.len < 0 then 0 else r.len)
  {
    if r.len == 0 {
      return InvalidLength, 0, 0;
    }
    if r.len > MaxLength {
      return LengthTooHigh, 0, 0;
    }
    res, attempts, drawsUsed := GeneratePassword(r, rand);
  }
}
