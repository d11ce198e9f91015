/** The three password generators and the common `generate()` contract they
    share. Every call of `random.choice` is an explicit oracle: `picks[i]` is
    the index chosen by the i-th call on a sequence, `coins[i]` the value
    chosen by the i-th call on `[True, False]`. The contracts then describe
    every possible output, and the reachability lemmas show that every
    output of the right shape is produced by some oracle. */
module PasswordGenerators {
  import opened Ascii
  import opened Strings

  datatype GenerateError = EmptyVocabulary
  datatype Result<T> = Success(value: T) | Failure(error: GenerateError)

  /** The number of iterations of `range(n)`. */
  function Max0(n: int): nat { if n > 0 then n else 0 }

  /** Every pick is an index into a sequence of `size` elements. */
  predicate InRange(picks: seq<nat>, size: nat) {
    forall i :: 0 <= i < |picks| ==> picks[i] < size
  }

  /** The picks of `n` calls of `random.choice` on a sequence of `size` elements. */
  predicate ValidPicks(picks: seq<nat>, n: int, size: nat) {
    |picks| == Max0(n) && InRange(picks, size)
  }

  function IndexOf<T(==)>(s: seq<T>, x: T): (k: nat)
    requires x in s
    ensures k < |s| && s[k] == x
    decreases |s|
  {
    if s[0] == x then 0 else 1 + IndexOf(s[1..], x)
  }

  /** `[random.choice(population) for _ in range(n)]` with the picks given. */
  function Choices<T(==)>(population: seq<T>, picks: seq<nat>): (chosen: seq<T>)
    requires InRange(picks, |population|)
    ensures |chosen| == |picks|
    ensures forall i :: 0 <= i < |chosen| ==> chosen[i] in population
  {
    seq(|picks|, i requires 0 <= i < |picks| => population[picks[i]])
  }

  lemma ChoicesSnoc<T>(population: seq<T>, picks: seq<nat>, i: nat)
    requires InRange(picks, |population|) && i < |picks|
    ensures Choices(population, picks[..i + 1]) == Choices(population, picks[..i]) + [population[picks[i]]]
  {
    assert picks[..i + 1] == picks[..i] + [picks[i]];
  }

  /** The shape of `n` choices: `max(n, 0)` elements of the population. */
  predicate Drawn<T(==)>(chosen: seq<T>, population: seq<T>, n: int) {
    |chosen| == Max0(n) && forall i :: 0 <= i < |chosen| ==> chosen[i] in population
  }

  /** Every sequence of the right shape is chosen by some picks. */
  lemma ChoicesReachEvery<T>(population: seq<T>, n: int, chosen: seq<T>)
    requires Drawn(chosen, population, n)
    ensures exists picks :: ValidPicks(picks, n, |population|) && Choices(population, picks) == chosen
  {
    var picks := seq(|chosen|, i requires 0 <= i < |chosen| => IndexOf(population, chosen[i]));
    assert ValidPicks(picks, n, |population|);
    assert Choices(population, picks) == chosen;
  }

  // ---------------------------------------------------------------------
  // Character passwords (random password and PIN)
  // ---------------------------------------------------------------------

  /** The character universe of a random password: the letters, then the
      digits if asked for, then the punctuation if asked for. */
  function Universe(includeNumbers: bool, includeSymbols: bool): (u: string)
    ensures |u| == 52 + (if includeNumbers then 10 else 0) + (if includeSymbols then 32 else 0)
    ensures u[..52] == AsciiLetters
  {
    AsciiLetters
      + (if includeNumbers then Digits else "")
      + (if includeSymbols then Punctuation else "")
  }

  lemma UniverseMembership(includeNumbers: bool, includeSymbols: bool, c: char)
    ensures c in Universe(includeNumbers, includeSymbols)
        <==> IsLetter(c) || (includeNumbers && IsDigit(c)) || (includeSymbols && IsPunctuation(c))
  {
    LettersMembership(c);
    DigitsMembership(c);
    PunctuationMembership(c);
  }

  /** The letters are always there; the digits exactly when `includeNumbers`,
      the punctuation exactly when `includeSymbols`. */
  lemma UniverseClasses(includeNumbers: bool, includeSymbols: bool)
    ensures forall c :: c in AsciiLetters ==> c in Universe(includeNumbers, includeSymbols)
    ensures includeNumbers <==> forall c :: c in Digits ==> c in Universe(includeNumbers, includeSymbols)
    ensures !includeNumbers ==> forall c :: c in Digits ==> c !in Universe(includeNumbers, includeSymbols)
    ensures includeSymbols <==> forall c :: c in Punctuation ==> c in Universe(includeNumbers, includeSymbols)
    ensures !includeSymbols ==> forall c :: c in Punctuation ==> c !in Universe(includeNumbers, includeSymbols)
  {
    var u := Universe(includeNumbers, includeSymbols);
    forall c | c in AsciiLetters ensures c in u {
      LettersMembership(c);
      UniverseMembership(includeNumbers, includeSymbols, c);
    }
    forall c | c in Digits ensures includeNumbers <==> c in u {
      DigitsMembership(c);
      UniverseMembership(includeNumbers, includeSymbols, c);
    }
    forall c | c in Punctuation ensures includeSymbols <==> c in u {
      PunctuationMembership(c);
      UniverseMembership(includeNumbers, includeSymbols, c);
    }
    assert '0' in Digits by { DigitsMembership('0'); }
    assert '!' in Punctuation by { PunctuationMembership('!'); }
  }

  /** The order of the universe: the 10 digits right after the letters if
      included, the 32 punctuation characters last if included; letters only
      when both flags are off. */
  lemma UniverseLayout(includeNumbers: bool, includeSymbols: bool)
    ensures var u := Universe(includeNumbers, includeSymbols);
      && (includeNumbers ==> u[52..62] == Digits)
      && (includeSymbols ==> u[|u| - 32..] == Punctuation)
      && (!includeNumbers && !includeSymbols ==> u == AsciiLetters)
  {
  }

  /** Turning a flag on adds characters and removes none, whatever the other flag. */
  lemma FlagsEnlargeUniverse(includeNumbers: bool, includeSymbols: bool)
    ensures forall c :: c in Universe(false, false) ==> c in Universe(includeNumbers, includeSymbols)
    ensures forall c :: c in Universe(false, includeSymbols) ==> c in Universe(true, includeSymbols)
    ensures forall c :: c in Universe(includeNumbers, false) ==> c in Universe(includeNumbers, true)
    ensures includeNumbers ==> '0' in Universe(includeNumbers, includeSymbols) && '0' !in Universe(false, includeSymbols)
    ensures includeSymbols ==> '!' in Universe(includeNumbers, includeSymbols) && '!' !in Universe(includeNumbers, false)
  {
    UniverseMembership(includeNumbers, includeSymbols, '0');
    UniverseMembership(false, includeSymbols, '0');
    UniverseMembership(includeNumbers, includeSymbols, '!');
    UniverseMembership(includeNumbers, false, '!');
    forall c | c in Universe(false, false) ensures c in Universe(includeNumbers, includeSymbols) {
      UniverseMembership(false, false, c);
      UniverseMembership(includeNumbers, includeSymbols, c);
    }
    forall c | c in Universe(false, includeSymbols) ensures c in Universe(true, includeSymbols) {
      UniverseMembership(false, includeSymbols, c);
      UniverseMembership(true, includeSymbols, c);
    }
    forall c | c in Universe(includeNumbers, false) ensures c in Universe(includeNumbers, true) {
      UniverseMembership(includeNumbers, false, c);
      UniverseMembership(includeNumbers, true, c);
    }
  }

  class RandomPasswordGenerator {
    const length: int
    const allChoices: string

    constructor (length: int := 8, includeNumbers: bool := true, includeSymbols: bool := true)
      ensures this.length == length
      ensures allChoices == Universe(includeNumbers, includeSymbols)
    {
      this.length := length;
      var choices := AsciiLetters;
      if includeNumbers {
        choices := choices + Digits;
      }
      if includeSymbols {
        choices := choices + Punctuation;
      }
      allChoices := choices;
    }

    /** `max(length, 0)` characters, each one of `allChoices`. */
    method Generate(picks: seq<nat>) returns (password: string)
      requires ValidPicks(picks, length, |allChoices|)
      ensures |password| == Max0(length)
      ensures forall i :: 0 <= i < |password| ==> password[i] in allChoices
      ensures password == Choices(allChoices, picks)
    {
      password := "";
      var i := 0;
      while i < length
        invariant 0 <= i <= Max0(length)
        invariant password == Choices(allChoices, picks[..i])
      {
        ChoicesSnoc(allChoices, picks, i);
        password := password + [allChoices[picks[i]]];
        i := i + 1;
      }
      assert picks[..i] == picks;
    }
  }

  class PinCodeGenerator {
    const length: int

    constructor (length: int := 8)
      ensures this.length == length
    {
      this.length := length;
    }

    /** `max(length, 0)` decimal digits; a string, so leading zeros stay. */
    method Generate(picks: seq<nat>) returns (pin: string)
      requires ValidPicks(picks, length, |Digits|)
      ensures |pin| == Max0(length)
      ensures forall i :: 0 <= i < |pin| ==> IsDigit(pin[i])
      ensures pin == Choices(Digits, picks)
    {
      pin := "";
      var i := 0;
      while i < length
        invariant 0 <= i <= Max0(length)
        invariant pin == Choices(Digits, picks[..i])
      {
        ChoicesSnoc(Digits, picks, i);
        pin := pin + [Digits[picks[i]]];
        i := i + 1;
      }
      assert picks[..i] == picks;
      forall k | 0 <= k < |pin| ensures IsDigit(pin[k]) {
        DigitsMembership(pin[k]);
      }
    }
  }

  // ---------------------------------------------------------------------
  // Memorable passwords
  // ---------------------------------------------------------------------

  /** `[w.capitalize() if random.choice([True, False]) else w.lower() for w in words]`
      with the coins given. */
  function Styled(words: seq<string>, coins: seq<bool>): (styled: seq<string>)
    requires |coins| == |words|
    ensures |styled| == |words|
    ensures forall i :: 0 <= i < |styled| ==> styled[i] == Capitalize(words[i]) || styled[i] == Lower(words[i])
  {
    seq(|words|, i requires 0 <= i < |words| => if coins[i] then Capitalize(words[i]) else Lower(words[i]))
  }

  lemma StyledSnoc(words: seq<string>, coins: seq<bool>, j: nat)
    requires |coins| == |words| && j < |words|
    ensures Styled(words[..j + 1], coins[..j + 1])
         == Styled(words[..j], coins[..j]) + [if coins[j] then Capitalize(words[j]) else Lower(words[j])]
  {
    assert words[..j + 1] == words[..j] + [words[j]];
    assert coins[..j + 1] == coins[..j] + [coins[j]];
  }

  /** A word that can stand in a memorable password: a vocabulary entry as
      stored, or, when capitalizing, its lower-case or capitalized form. */
  ghost predicate IsWordForm(vocabulary: seq<string>, capitalize: bool, w: string) {
    exists k :: 0 <= k < |vocabulary| &&
      if capitalize then w == Lower(vocabulary[k]) || w == Capitalize(vocabulary[k])
      else w == vocabulary[k]
  }

  /** The oracle of one memorable `generate()` call: none at all when the
      first pick fails on an empty vocabulary. */
  predicate MemorableOracle(vocabulary: seq<string>, capitalize: bool, n: int, picks: seq<nat>, coins: seq<bool>) {
    (n > 0 && |vocabulary| == 0)
    || (ValidPicks(picks, n, |vocabulary|) && (capitalize ==> |coins| == |picks|))
  }

  /** The words joined by one memorable `generate()` call. */
  function MemorableWords(vocabulary: seq<string>, capitalize: bool, picks: seq<nat>, coins: seq<bool>): (words: seq<string>)
    requires InRange(picks, |vocabulary|)
    requires capitalize ==> |coins| == |picks|
    ensures |words| == |picks|
    ensures forall i :: 0 <= i < |words| ==> IsWordForm(vocabulary, capitalize, words[i])
  {
    var chosen := Choices(vocabulary, picks);
    if capitalize then Styled(chosen, coins) else chosen
  }

  /** The shape of a memorable password: `max(n, 0)` admissible words joined
      by the separator. */
  ghost predicate MemorableShape(password: string, vocabulary: seq<string>, separator: string, capitalize: bool, n: int) {
    exists words :: |words| == Max0(n)
      && (forall i :: 0 <= i < |words| ==> IsWordForm(vocabulary, capitalize, words[i]))
      && password == Join(separator, words)
  }

  /** The outcome of one memorable `generate()` call with the oracle given. */
  function MemorablePassword(vocabulary: seq<string>, separator: string, capitalize: bool, n: int,
                             picks: seq<nat>, coins: seq<bool>): (r: Result<string>)
    requires MemorableOracle(vocabulary, capitalize, n, picks, coins)
    ensures r.Failure? <==> n > 0 && |vocabulary| == 0
    ensures r.Success? ==> MemorableShape(r.value, vocabulary, separator, capitalize, n)
  {
    if n > 0 && |vocabulary| == 0 then Failure(EmptyVocabulary)
    else
      var words := MemorableWords(vocabulary, capitalize, picks, coins);
      assert |words| == Max0(n);
      Success(Join(separator, words))
  }

  /** The vocabulary entry an admissible word comes from. */
  ghost function WordSource(vocabulary: seq<string>, capitalize: bool, w: string): (k: nat)
    requires IsWordForm(vocabulary, capitalize, w)
    ensures k < |vocabulary|
    ensures capitalize ==> w == Lower(vocabulary[k]) || w == Capitalize(vocabulary[k])
    ensures !capitalize ==> w == vocabulary[k]
  {
    var k :| 0 <= k < |vocabulary| &&
      if capitalize then w == Lower(vocabulary[k]) || w == Capitalize(vocabulary[k])
      else w == vocabulary[k];
    k
  }

  /** Every password of the memorable shape is produced by some oracle. */
  lemma MemorableReachesEvery(vocabulary: seq<string>, separator: string, capitalize: bool, n: int, password: string)
    requires MemorableShape(password, vocabulary, separator, capitalize, n)
    ensures exists picks, coins ::
      && MemorableOracle(vocabulary, capitalize, n, picks, coins)
      && MemorablePassword(vocabulary, separator, capitalize, n, picks, coins) == Success(password)
  {
    var words :| |words| == Max0(n)
      && (forall i :: 0 <= i < |words| ==> IsWordForm(vocabulary, capitalize, words[i]))
      && password == Join(separator, words);
    var picks := seq(|words|, i requires 0 <= i < |words| => WordSource(vocabulary, capitalize, words[i]));
    var coins := seq(|words|, i requires 0 <= i < |words| => words[i] == Capitalize(vocabulary[picks[i]]));
    assert ValidPicks(picks, n, |vocabulary|);
    var chosen := Choices(vocabulary, picks);
    var produced := MemorableWords(vocabulary, capitalize, picks, coins);
    forall i | 0 <= i < |words| ensures produced[i] == words[i] {
      assert chosen[i] == vocabulary[picks[i]];
      if capitalize {
        assert produced[i] == if coins[i] then Capitalize(chosen[i]) else Lower(chosen[i]);
      }
    }
    assert produced == words;
    assert MemorableOracle(vocabulary, capitalize, n, picks, coins);
  }

  /** n >= 1 memorable words joined hold their characters plus n - 1 separators. */
  lemma MemorableLength(vocabulary: seq<string>, separator: string, capitalize: bool, n: int,
                        picks: seq<nat>, coins: seq<bool>)
    requires MemorableOracle(vocabulary, capitalize, n, picks, coins)
    requires n >= 1 && |vocabulary| > 0
    ensures MemorablePassword(vocabulary, separator, capitalize, n, picks, coins).Success?
    ensures |MemorablePassword(vocabulary, separator, capitalize, n, picks, coins).value|
         == TotalLength(MemorableWords(vocabulary, capitalize, picks, coins)) + (n - 1) * |separator|
  {
    JoinLength(separator, MemorableWords(vocabulary, capitalize, picks, coins));
  }

  /** A one-character separator that occurs in no admissible form of any
      vocabulary entry splits a memorable password back into its n >= 1 words. */
  lemma MemorableSplit(vocabulary: seq<string>, sep: char, capitalize: bool, n: int,
                       picks: seq<nat>, coins: seq<bool>)
    requires MemorableOracle(vocabulary, capitalize, n, picks, coins)
    requires n >= 1 && |vocabulary| > 0
    requires forall k :: 0 <= k < |vocabulary| ==>
      if capitalize then sep !in Lower(vocabulary[k]) && sep !in Capitalize(vocabulary[k])
      else sep !in vocabulary[k]
    ensures MemorablePassword(vocabulary, [sep], capitalize, n, picks, coins).Success?
    ensures Split(MemorablePassword(vocabulary, [sep], capitalize, n, picks, coins).value, sep)
         == MemorableWords(vocabulary, capitalize, picks, coins)
    ensures |Split(MemorablePassword(vocabulary, [sep], capitalize, n, picks, coins).value, sep)| == n
  {
    var chosen := Choices(vocabulary, picks);
    var words := MemorableWords(vocabulary, capitalize, picks, coins);
    forall i | 0 <= i < |words| ensures sep !in words[i] {
      var v := vocabulary[picks[i]];
      assert chosen[i] == v;
      if capitalize {
        assert words[i] == Capitalize(v) || words[i] == Lower(v);
      }
    }
    SplitJoin(sep, words);
  }

  /** Two example outputs: a six-digit PIN with a leading zero, and three
      words of a three-word vocabulary joined by a dash. */
  lemma ExampleOutputs()
    ensures Drawn("042918", Digits, 6)
    ensures MemorableShape("cat-dog-sun", ["cat", "dog", "sun"], "-", false, 3)
  {
    forall i | 0 <= i < 6 ensures "042918"[i] in Digits {
      DigitsMembership("042918"[i]);
    }
    var vocabulary := ["cat", "dog", "sun"];
    assert IsWordForm(vocabulary, false, vocabulary[0]);
    assert IsWordForm(vocabulary, false, vocabulary[1]);
    assert IsWordForm(vocabulary, false, vocabulary[2]);
    assert Join("-", vocabulary) == "cat-dog-sun";
  }

  class MemorablePasswordGenerator {
    const numberOfWords: int
    const separator: string
    const capitalize: bool
    const vocabulary: seq<string>

    constructor (numberOfWords: int := 4, separator: string := "-", capitalize: bool := false, vocabulary: seq<string>)
      ensures this.numberOfWords == numberOfWords && this.separator == separator
      ensures this.capitalize == capitalize && this.vocabulary == vocabulary
    {
      this.numberOfWords := numberOfWords;
      this.separator := separator;
      this.capitalize := capitalize;
      this.vocabulary := vocabulary;
    }

    /** Fails exactly when a word must be picked from an empty vocabulary;
        otherwise `max(numberOfWords, 0)` admissible words joined by `separator`. */
    method Generate(picks: seq<nat>, coins: seq<bool>) returns (result: Result<string>)
      requires MemorableOracle(vocabulary, capitalize, numberOfWords, picks, coins)
      ensures result.Failure? <==> numberOfWords > 0 && |vocabulary| == 0
      ensures result.Success? ==> MemorableShape(result.value, vocabulary, separator, capitalize, numberOfWords)
      ensures result == MemorablePassword(vocabulary, separator, capitalize, numberOfWords, picks, coins)
    {
      if numberOfWords > 0 && |vocabulary| == 0 {
        return Failure(EmptyVocabulary);
      }
      var words: seq<string> := [];
      var i := 0;
      while i < numberOfWords
        invariant 0 <= i <= Max0(numberOfWords)
        invariant words == Choices(vocabulary, picks[..i])
      {
        ChoicesSnoc(vocabulary, picks, i);
        words := words + [vocabulary[picks[i]]];
        i := i + 1;
      }
      assert picks[..i] == picks;
      if capitalize {
        var styled: seq<string> := [];
        var j := 0;
        while j < |words|
          invariant 0 <= j <= |words|
          invariant styled == Styled(words[..j], coins[..j])
        {
          StyledSnoc(words, coins, j);
          styled := styled + [if coins[j] then Capitalize(words[j]) else Lower(words[j])];
          j := j + 1;
        }
        assert words[..j] == words && coins[..j] == coins;
        words := styled;
      }
      assert words == MemorableWords(vocabulary, capitalize, picks, coins);
      result := Success(Join(separator, words));
    }
  }

  /** The generators built with the default arguments, and the random one
      with only `length` and `include_symbols` given: it keeps the digits. */
  method DefaultConfigurations(vocabulary: seq<string>)
    returns (random: RandomPasswordGenerator, pin: PinCodeGenerator,
             memorable: MemorablePasswordGenerator, noSymbols: RandomPasswordGenerator)
    ensures random.length == 8 && random.allChoices == Universe(true, true)
    ensures pin.length == 8
    ensures memorable.numberOfWords == 4 && memorable.separator == "-" && !memorable.capitalize
    ensures memorable.vocabulary == vocabulary
    ensures noSymbols.length == 12 && noSymbols.allChoices == Universe(true, false)
  {
    random := new RandomPasswordGenerator();
    pin := new PinCodeGenerator();
    memorable := new MemorablePasswordGenerator(vocabulary := vocabulary);
    noSymbols := new RandomPasswordGenerator(length := 12, includeSymbols := false);
  }

  // ---------------------------------------------------------------------
  // The common contract: `generate()` on any of the three generators
  // ---------------------------------------------------------------------

  /** The abstract base with its one operation, as the closed set of its
      three implementations. */
  datatype PasswordGenerator =
    | Memorable(memorable: MemorablePasswordGenerator)
    | Random(random: RandomPasswordGenerator)
    | PinCode(pin: PinCodeGenerator)

  /** The oracle fits the generator's configuration. */
  predicate Fits(g: PasswordGenerator, picks: seq<nat>, coins: seq<bool>) {
    match g
    case Memorable(m) => MemorableOracle(m.vocabulary, m.capitalize, m.numberOfWords, picks, coins)
    case Random(r) => ValidPicks(picks, r.length, |r.allChoices|)
    case PinCode(p) => ValidPicks(picks, p.length, |Digits|)
  }

  /** The passwords a generator's configuration allows. */
  ghost predicate Admissible(g: PasswordGenerator, password: string) {
    match g
    case Memorable(m) => MemorableShape(password, m.vocabulary, m.separator, m.capitalize, m.numberOfWords)
    case Random(r) => Drawn(password, r.allChoices, r.length)
    case PinCode(p) => Drawn(password, Digits, p.length)
  }

  /** The outcome of `generate()` with the oracle given. */
  function Output(g: PasswordGenerator, picks: seq<nat>, coins: seq<bool>): (r: Result<string>)
    requires Fits(g, picks, coins)
    ensures r.Failure? <==> g.Memorable? && g.memorable.numberOfWords > 0 && |g.memorable.vocabulary| == 0
    ensures r.Success? ==> Admissible(g, r.value)
  {
    match g
    case Memorable(m) => MemorablePassword(m.vocabulary, m.separator, m.capitalize, m.numberOfWords, picks, coins)
    case Random(r) => Success(Choices(r.allChoices, picks))
    case PinCode(p) => Success(Choices(Digits, picks))
  }

  /** Exactly the admissible passwords are the possible outputs of `generate()`. */
  lemma OutputsAreAdmissible(g: PasswordGenerator, password: string)
    ensures Admissible(g, password)
        <==> exists picks, coins :: Fits(g, picks, coins) && Output(g, picks, coins) == Success(password)
  {
    if Admissible(g, password) {
      match g
      case Memorable(m) =>
        MemorableReachesEvery(m.vocabulary, m.separator, m.capitalize, m.numberOfWords, password);
        var picks, coins :| MemorableOracle(m.vocabulary, m.capitalize, m.numberOfWords, picks, coins)
          && MemorablePassword(m.vocabulary, m.separator, m.capitalize, m.numberOfWords, picks, coins) == Success(password);
        assert Fits(g, picks, coins) && Output(g, picks, coins) == Success(password);
      case Random(r) =>
        ChoicesReachEvery(r.allChoices, r.length, password);
        var picks :| ValidPicks(picks, r.length, |r.allChoices|) && Choices(r.allChoices, picks) == password;
        assert Fits(g, picks, []) && Output(g, picks, []) == Success(password);
      case PinCode(p) =>
        ChoicesReachEvery(Digits, p.length, password);
        var picks :| ValidPicks(picks, p.length, |Digits|) && Choices(Digits, picks) == password;
        assert Fits(g, picks, []) && Output(g, picks, []) == Success(password);
    }
  }

  /** `generator.generate()` on whichever generator was constructed. */
  method Generate(g: PasswordGenerator, picks: seq<nat>, coins: seq<bool>) returns (result: Result<string>)
    requires Fits(g, picks, coins)
    ensures result.Failure? <==> g.Memorable? && g.memorable.numberOfWords > 0 && |g.memorable.vocabulary| == 0
    ensures result.Success? ==> Admissible(g, result.value)
    ensures result == Output(g, picks, coins)
  {
    match g
    case Memorable(m) =>
      result := m.Generate(picks, coins);
    case Random(r) =>
      var password := r.Generate(picks);
      result := Success(password);
    case PinCode(p) =>
      var pin := p.Generate(picks);
      result := Success(pin);
  }

  /** Two calls on one generator may differ, but both draw from the same
      configuration: both succeed or both fail, and both are admissible. */
  method GenerateTwice(g: PasswordGenerator, picks1: seq<nat>, coins1: seq<bool>, picks2: seq<nat>, coins2: seq<bool>)
    returns (first: Result<string>, second: Result<string>)
    requires Fits(g, picks1, coins1) && Fits(g, picks2, coins2)
    ensures first.Success? <==> second.Success?
    ensures first.Success? ==> Admissible(g, first.value) && Admissible(g, second.value)
  {
    first := Generate(g, picks1, coins1);
    second := Generate(g, picks2, coins2);
  }
}
