/** Ids in literal texts: which prefixes count, where a number ends, and where counting starts. */
module IdLaws {
  import opened Columns
  import opened IdAlloc
  import opened ItemTypes
  import opened Wrappers

  /** The prefixes that the scan knows, those of ids from before the short ones included. */
  const KNOWN: set<string> := {"EX", "CH", "VY", "CA", "HZ", "SG", "FT", "PAPER", "H", "EXPR", "M", "IDEA", "LIT",
                               "EXP", "CHORE", "VOY", "HAZ", "SIG", "FEAT"}

  lemma PrefixesOfType(t: ItemType)
    ensures forall p :: p in AllPrefixes(t) <==>
              p in match t
                   case Expedition => ["EX", "EXP"]
                   case Chore => ["CH", "CHORE"]
                   case Voyage => ["VY", "VOY"]
                   case Campaign => ["CA"]
                   case Hazard => ["HZ", "HAZ"]
                   case Signal => ["SG", "SIG"]
                   case Feature => ["FT", "FEAT"]
                   case Paper => ["PAPER"]
                   case Hypothesis => ["H"]
                   case Experiment => ["EXPR"]
                   case Measure => ["M"]
                   case Idea => ["IDEA"]
                   case Literature => ["LIT"]
  {
  }

  lemma KnownPrefix(p: string, t: ItemType)
    requires p in AllPrefixes(t)
    ensures p in KNOWN && p in Prefixes()
  {
    AllTypes(t);
    KnownPrefixes(DEV + RESEARCH, p);
  }

  lemma PrefixesAre(p: string)
    ensures p in Prefixes() <==> p in KNOWN
  {
    KnownPrefixes(DEV + RESEARCH, p);
    if t :| t in DEV + RESEARCH && p in AllPrefixes(t) {
      KnownPrefix(p, t);
    }
    if p in KNOWN {
      var t := TypeOf(p);
      KnownPrefix(p, t);
    }
  }

  /** The type that uses a known prefix. */
  function TypeOf(p: string): (t: ItemType)
    requires p in KNOWN
    ensures p in AllPrefixes(t)
  {
    if p in ["EX", "EXP"] then Expedition
    else if p in ["CH", "CHORE"] then Chore
    else if p in ["VY", "VOY"] then Voyage
    else if p == "CA" then Campaign
    else if p in ["HZ", "HAZ"] then Hazard
    else if p in ["SG", "SIG"] then Signal
    else if p in ["FT", "FEAT"] then Feature
    else if p == "PAPER" then Paper
    else if p == "H" then Hypothesis
    else if p == "EXPR" then Experiment
    else if p == "M" then Measure
    else if p == "IDEA" then Idea
    else Literature
  }

  // ------------------------------------------------------------ what is counted

  lemma {:induction false} NumberEndsAtDot(digits: string, rest: string)
    requires AllDigits(digits)
    ensures BeforeDot(digits + "." + rest) == digits
  {
    if digits != [] {
      assert IsDigit(digits[0]);
      assert (digits + "." + rest)[1..] == digits[1..] + "." + rest;
      NumberEndsAtDot(digits[1..], rest);
    }
  }

  /** A dotted id counts with the number before the first dot, a plain one with its number, and both may have a plus sign. */
  lemma NumberOf(p: string, n: nat, rest: string)
    requires n <= U32_MAX
    ensures NumberUnder(p + "-" + Decimal(n), p) == n
    ensures NumberUnder(p + "-" + (Decimal(n) + "." + rest), p) == n
  {
    var head := p + "-";
    assert (head + Decimal(n))[..|head|] == head && (head + Decimal(n))[|head|..] == Decimal(n);
    var dotted := Decimal(n) + "." + rest;
    assert (head + dotted)[..|head|] == head && (head + dotted)[|head|..] == dotted;
    NoDotInDigits(Decimal(n));
    NumberEndsAtDot(Decimal(n), rest);
    ParseDecimal(n);
  }

  lemma {:induction false} BeforeDotSplits(s: string) returns (rest: string)
    ensures s == BeforeDot(s) + rest && '.' !in BeforeDot(s) && (rest == "" || rest[0] == '.')
  {
    if s == [] || s[0] == '.' {
      rest := s;
    } else {
      var first, digits := [s[0]], BeforeDot(s[1..]);
      rest := BeforeDotSplits(s[1..]);
      assert BeforeDot(s) == first + digits;
      assert s == first + (digits + rest);
    }
  }

  lemma CountedPrefix(id: Id, p: string)
    requires NumberUnder(id, p) > 0
    ensures |p| < |id| && id[..|p|] == p && id[|p|] == '-'
    ensures ParseU32(BeforeDot(id[|p| + 1..])) == Some(NumberUnder(id, p))
  {
    var head := p + "-";
    assert id[..|head|] == head;
    assert id[..|p|] == head[..|p|] && id[|p|] == head[|p|];
  }

  lemma Joined(id: Id, p: string)
    requires |p| < |id| && id[..|p|] == p && id[|p|] == '-'
    ensures id == p + "-" + id[|p| + 1..]
  {
  }

  /** An id counts only behind its own prefix and a dash, and up to the first dot. */
  lemma CountedIds(id: Id, p: string) returns (digits: string, rest: string)
    requires NumberUnder(id, p) > 0
    ensures id == p + "-" + (digits + rest) && '.' !in digits && (rest == "" || rest[0] == '.')
    ensures ParseU32(digits) == Some(NumberUnder(id, p))
  {
    var number := id[|p| + 1..];
    CountedPrefix(id, p);
    Joined(id, p);
    digits := BeforeDot(number);
    rest := BeforeDotSplits(number);
  }

  /** So no later id gets a number up to that of any row, whatever its prefix and whatever follows the dot. */
  lemma NextIsGreater(rows: seq<Row>, k: nat, p: string, n: nat, rest: string)
    requires k < |rows| && p in KNOWN && n <= U32_MAX && MaxNumber(rows, Prefixes()) < U32_MAX
    requires IdOf(rows[k]) == p + "-" + Decimal(n) || IdOf(rows[k]) == p + "-" + (Decimal(n) + "." + rest)
    ensures NextNumber(rows) > n
  {
    PrefixesAre(p);
    NumberOf(p, n, rest);
    MaxNumberBounds(rows, Prefixes(), k);
    CounterAdvances(rows);
  }

  /** The first id of a board. */
  lemma FirstId(t: ItemType)
    ensures NextNumber([]) == 1300 && IdText(Expedition, 1300) == "EX-1300"
    ensures IdText(t, 1300) == AllPrefixes(t)[0] + "-1300"
  {
    var d1, d2, d3 := Decimal(1), Decimal(13), Decimal(130);
    assert d1 == "1";
    assert d2 == "13";
    assert d3 == "130";
    assert Decimal(1300) == "1300";
    assert "-" + "1300" == "-1300";
  }

  lemma NoNumber(s: string)
    requires s != [] && s[0] != '+' && !IsDigit(s[0])
    ensures ParseU32(s) == None
  {
  }

  /** A plus sign is accepted, a minus sign, white space or no digit at all is not. */
  lemma Signs(n: nat, s: string)
    ensures ParseU32("+" + Decimal(n)) == ParseU32(Decimal(n))
    ensures s != [] && !IsDigit(s[0]) && s[0] != '+' ==> ParseU32(s) == None
    ensures ParseU32("") == None && ParseU32("+") == None
  {
    assert ("+" + Decimal(n))[1..] == Decimal(n);
    assert IsDigit(Decimal(n)[0]);
    if s != [] && !IsDigit(s[0]) && s[0] != '+' {
      NoNumber(s);
    }
  }
}
