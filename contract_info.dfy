/**
 * Reading the "conid@exchange" string that a display-group update carries
 * (PositionSizerPanel.displayGroupUpdated): Java's String.split on "@",
 * which drops trailing empty pieces, Integer.parseInt on the first piece,
 * and the default exchange "SMART".
 */
module ContractInfo {
  import opened Wrappers

  const Separator: char := '@'
  const DefaultExchange: string := "SMART"

  /** The range of a Java int. */
  const MinInt: int := -0x8000_0000
  const MaxInt: int := 0x7fff_ffff

  /** The two fields of the contract the panel requests data for. */
  datatype Contract = Contract(conid: int, exchange: string)

  // ---------------------------------------------------------------------
  // String.split

  /** Every piece between separators, empty ones included. */
  function SplitAll(s: string, sep: char): (parts: seq<string>)
    ensures |parts| >= 1
    ensures forall i :: 0 <= i < |parts| ==> sep !in parts[i]
  {
    if s == [] then [[]]
    else
      var rest := SplitAll(s[1..], sep);
      if s[0] == sep then [[]] + rest else [[s[0]] + rest[0]] + rest[1..]
  }

  /** The pieces glued back together with the separator between them. */
  function Join(parts: seq<string>, sep: char): string
    requires |parts| >= 1
  {
    if |parts| == 1 then parts[0] else parts[0] + [sep] + Join(parts[1..], sep)
  }

  lemma {:induction false} JoinSplit(s: string, sep: char)
    ensures Join(SplitAll(s, sep), sep) == s
  {
    if s != [] {
      JoinSplit(s[1..], sep);
      var rest := SplitAll(s[1..], sep);
      if s[0] != sep && |rest| > 1 {
        assert ([[s[0]] + rest[0]] + rest[1..])[1..] == rest[1..];
      }
    }
  }

  lemma {:induction false} SplitWithoutSeparator(s: string, sep: char)
    requires sep !in s
    ensures SplitAll(s, sep) == [s]
  {
    if s != [] {
      SplitWithoutSeparator(s[1..], sep);
      assert [s[0]] + s[1..] == s;
    }
  }

  lemma {:induction false} SplitAtFirst(a: string, b: string, sep: char)
    requires sep !in a
    ensures SplitAll(a + [sep] + b, sep) == [a] + SplitAll(b, sep)
  {
    if a != [] {
      assert (a + [sep] + b)[1..] == a[1..] + [sep] + b;
      SplitAtFirst(a[1..], b, sep);
      assert [a[0]] + a[1..] == a;
    } else {
      assert a + [sep] + b == [sep] + b;
    }
  }

  /** Splitting undoes joining pieces that hold no separator. */
  lemma {:induction false} SplitJoin(parts: seq<string>, sep: char)
    requires |parts| >= 1
    requires forall i :: 0 <= i < |parts| ==> sep !in parts[i]
    ensures SplitAll(Join(parts, sep), sep) == parts
  {
    if |parts| == 1 {
      SplitWithoutSeparator(parts[0], sep);
    } else {
      SplitJoin(parts[1..], sep);
      SplitAtFirst(parts[0], Join(parts[1..], sep), sep);
      assert [parts[0]] + parts[1..] == parts;
    }
  }

  /** The longest prefix of the pieces that does not end in an empty piece. */
  function DropTrailingEmpty(parts: seq<string>): (r: seq<string>)
    ensures |r| <= |parts| && r == parts[..|r|]
    ensures r == [] || r[|r| - 1] != []
    ensures forall i :: |r| <= i < |parts| ==> parts[i] == []
  {
    if |parts| > 0 && parts[|parts| - 1] == [] then DropTrailingEmpty(parts[..|parts| - 1]) else parts
  }

  /**
   * Java's s.split(regex) for a one-character literal separator: the input
   * itself when the separator does not occur, otherwise every piece with the
   * trailing empty ones removed.
   */
  function JavaSplit(s: string, sep: char): (parts: seq<string>)
    ensures forall i :: 0 <= i < |parts| ==> sep !in parts[i]
    ensures sep in s ==> parts == [] || parts[|parts| - 1] != []
  {
    if sep !in s then [s] else DropTrailingEmpty(SplitAll(s, sep))
  }

  /** A separator at the end adds one empty piece. */
  lemma {:induction false} SplitAllTrailing(s: string, sep: char)
    ensures SplitAll(s + [sep], sep) == SplitAll(s, sep) + [[]]
  {
    if s == [] {
      assert SplitAll([sep], sep) == [[]] + SplitAll([], sep);
    } else {
      assert (s + [sep])[1..] == s[1..] + [sep];
      SplitAllTrailing(s[1..], sep);
      var rest := SplitAll(s[1..], sep);
      if s[0] != sep {
        assert (rest + [[]])[1..] == rest[1..] + [[]];
      }
    }
  }

  /**
   * A separator at the end of a non-empty string changes nothing: Java's
   * split drops the empty piece it makes.
   */
  lemma JavaSplitTrailing(s: string, sep: char)
    requires s != []
    ensures JavaSplit(s + [sep], sep) == JavaSplit(s, sep)
  {
    var t := s + [sep];
    assert t[|s|] == sep;
    SplitAllTrailing(s, sep);
    var all := SplitAll(s, sep);
    assert (all + [[]])[..|all|] == all;
    if sep !in s {
      SplitWithoutSeparator(s, sep);
    }
  }

  predicate AllEmpty(parts: seq<string>) { forall i :: 0 <= i < |parts| ==> parts[i] == [] }

  predicate OnlySeparators(s: string, sep: char) { forall j :: 0 <= j < |s| ==> s[j] == sep }

  lemma {:induction false} SplitAllEmpty(s: string, sep: char)
    ensures AllEmpty(SplitAll(s, sep)) <==> OnlySeparators(s, sep)
  {
    if s != [] {
      SplitAllEmpty(s[1..], sep);
      var rest := SplitAll(s[1..], sep);
      if s[0] == sep {
        assert SplitAll(s, sep) == [[]] + rest;
        if AllEmpty(rest) {
          assert AllEmpty([[]] + rest);
        }
        if AllEmpty([[]] + rest) {
          assert forall i :: 0 <= i < |rest| ==> rest[i] == ([[]] + rest)[i + 1];
        }
        if OnlySeparators(s[1..], sep) {
          assert forall j :: 1 <= j < |s| ==> s[j] == s[1..][j - 1];
        }
      } else {
        assert SplitAll(s, sep)[0] != [];
      }
    }
  }

  /**
   * The split is empty exactly when the string is made of separators only,
   * "@" for one: the case the panel's length check guards against.
   */
  lemma JavaSplitEmpty(s: string, sep: char)
    ensures JavaSplit(s, sep) == [] <==> s != [] && OnlySeparators(s, sep)
  {
    if sep in s {
      SplitAllEmpty(s, sep);
      var all := SplitAll(s, sep);
      var kept := DropTrailingEmpty(all);
      if kept == [] {
        assert AllEmpty(all);
      }
    } else if s != [] {
      assert s[0] != sep;
    }
  }

  /** Two pieces come back as two pieces when the second one is not empty. */
  lemma JavaSplitTwo(a: string, b: string, sep: char)
    requires sep !in a && sep !in b && b != []
    ensures JavaSplit(a + [sep] + b, sep) == [a, b]
  {
    var s := a + [sep] + b;
    assert s[|a|] == sep;
    SplitAtFirst(a, b, sep);
    SplitWithoutSeparator(b, sep);
  }

  // ---------------------------------------------------------------------
  // Integer.parseInt

  predicate IsDigit(c: char) { '0' <= c <= '9' }

  predicate AllDigits(s: string) { forall i :: 0 <= i < |s| ==> IsDigit(s[i]) }

  /** The number a string of decimal digits spells, most significant first. */
  function DigitsValue(s: string): nat
    requires AllDigits(s)
  {
    if s == [] then 0 else DigitsValue(s[..|s| - 1]) * 10 + (s[|s| - 1] as int - '0' as int)
  }

  /**
   * Integer.parseInt in base 10: an optional '-' or '+', at least one
   * digit, and a value inside the int range; None where Java throws
   * NumberFormatException.
   */
  function ParseInt(s: string): (r: Option<int>)
    ensures r.Some? ==> MinInt <= r.value <= MaxInt
    ensures r.Some? ==> s != [] && Separator !in s
  {
    var signed := |s| > 0 && (s[0] == '-' || s[0] == '+');
    var digits := if signed then s[1..] else s;
    if digits == [] || !AllDigits(digits) then None
    else
      var magnitude: int := DigitsValue(digits);
      var v: int := if s[0] == '-' then -magnitude else magnitude;
      if MinInt <= v <= MaxInt then
        Some(v)
      else None
  }

  /** Decimal digits of n without leading zeros, as Integer.toString writes them. */
  function ShowNat(n: nat): string {
    if n < 10 then [('0' as int + n) as char] else ShowNat(n / 10) + [('0' as int + n % 10) as char]
  }

  function ShowInt(n: int): string {
    if n < 0 then "-" + ShowNat(-n) else ShowNat(n)
  }

  lemma {:induction false} ShowNatDigits(n: nat)
    ensures ShowNat(n) != [] && AllDigits(ShowNat(n)) && DigitsValue(ShowNat(n)) == n
  {
    if n >= 10 {
      ShowNatDigits(n / 10);
      var s := ShowNat(n);
      assert s[..|s| - 1] == ShowNat(n / 10);
    }
  }

  /** parseInt reads back every int that toString writes. */
  lemma ParseShowInt(n: int)
    requires MinInt <= n <= MaxInt
    ensures ParseInt(ShowInt(n)) == Some(n)
  {
    ShowNatDigits(if n < 0 then -n else n);
    if n < 0 {
      assert ShowInt(n)[1..] == ShowNat(-n);
    }
  }

  // ---------------------------------------------------------------------
  // The display-group contract string

  /** What displayGroupUpdated makes of its argument. */
  datatype ContractParse =
    | NoParts                  // the split is empty: nothing happens
    | BadConid                 // parseInt throws: nothing happens
    | Parsed(contract: Contract)

  /**
   * The contract id is the first piece; the exchange is the second piece
   * when there are exactly two, and SMART otherwise.
   */
  function ParseContractInfo(info: string): (r: ContractParse)
    ensures r == NoParts <==> info != [] && OnlySeparators(info, Separator)
    ensures r.Parsed? ==> MinInt <= r.contract.conid <= MaxInt
    ensures r.Parsed? ==> r.contract.exchange != [] && Separator !in r.contract.exchange
  {
    JavaSplitEmpty(info, Separator);
    var parts := JavaSplit(info, Separator);
    if |parts| == 0 then NoParts
    else
      match ParseInt(parts[0])
      case None => BadConid
      case Some(id) =>
        assert |parts| == 2 ==> Separator in info by {
          if Separator !in info { assert |parts| == 1; }
        }
        Parsed(Contract(id, if |parts| == 2 then parts[1] else DefaultExchange))
  }

  lemma JoinHasSeparator(parts: seq<string>, sep: char)
    requires |parts| >= 2
    ensures sep in Join(parts, sep)
  {
    assert Join(parts, sep)[|parts[0]|] == sep;
  }

  /** Java's split undoes a join whose last piece is not empty. */
  lemma JavaSplitJoin(parts: seq<string>, sep: char)
    requires |parts| >= 2 && parts[|parts| - 1] != []
    requires forall i :: 0 <= i < |parts| ==> sep !in parts[i]
    ensures JavaSplit(Join(parts, sep), sep) == parts
  {
    JoinHasSeparator(parts, sep);
    SplitJoin(parts, sep);
  }

  /**
   * What displayGroupUpdated makes of any string whose last piece between
   * "@" is not empty, written as those pieces: the id is parseInt of the
   * first piece, and the exchange is the second piece when there are exactly
   * two, SMART otherwise. ParseTrailingSeparator covers the strings that end
   * in "@".
   */
  lemma ParsePieces(parts: seq<string>)
    requires |parts| >= 1
    requires forall i :: 0 <= i < |parts| ==> Separator !in parts[i]
    requires |parts| >= 2 ==> parts[|parts| - 1] != []
    ensures ParseContractInfo(Join(parts, Separator)) ==
      match ParseInt(parts[0])
      case None => BadConid
      case Some(id) => Parsed(Contract(id, if |parts| == 2 then parts[1] else DefaultExchange))
  {
    if |parts| >= 2 {
      JavaSplitJoin(parts, Separator);
    }
  }

  /** "id@exchange": the id is parseInt of the text before "@", the exchange the text after it. */
  lemma ParseFormatted(id: string, exchange: string)
    requires Separator !in id && Separator !in exchange && exchange != []
    ensures ParseContractInfo(id + [Separator] + exchange) ==
      if ParseInt(id).None? then BadConid else Parsed(Contract(ParseInt(id).value, exchange))
  {
    assert Join([id, exchange], Separator) == id + [Separator] + exchange;
    ParsePieces([id, exchange]);
  }

  /** Three pieces or more are routed to SMART, whatever the later pieces say. */
  lemma ParseThreePieces(id: string, middle: string, last: string)
    requires Separator !in id && Separator !in middle && Separator !in last && last != []
    ensures ParseContractInfo(id + [Separator] + middle + [Separator] + last) ==
      if ParseInt(id).None? then BadConid else Parsed(Contract(ParseInt(id).value, DefaultExchange))
  {
    assert Join([id, middle, last], Separator) == id + [Separator] + middle + [Separator] + last by {
      assert [id, middle, last][1..] == [middle, last];
      assert [middle, last][1..] == [last];
      assert Join([middle, last], Separator) == middle + [Separator] + last;
    }
    ParsePieces([id, middle, last]);
  }

  /** "@" at the end of a non-empty string does not change what it names. */
  lemma ParseTrailingSeparator(info: string)
    requires info != []
    ensures ParseContractInfo(info + [Separator]) == ParseContractInfo(info)
  {
    JavaSplitTrailing(info, Separator);
  }

  /** "12@NYSE@" still names contract 12 on NYSE. */
  lemma ParseTrailingSeparatorExample()
    ensures ParseContractInfo("12" + [Separator] + "NYSE" + [Separator]) == Parsed(Contract(12, "NYSE"))
  {
    ParseTrailingSeparator("12" + [Separator] + "NYSE");
    ParseFormatted("12", "NYSE");
    assert "12"[..1] == "1" && "1"[..0] == "";
    assert DigitsValue("12") == 12;
  }

  /** A contract written as "conid@exchange" reads back as itself. */
  lemma ParseShownContract(c: Contract)
    requires MinInt <= c.conid <= MaxInt
    requires c.exchange != [] && Separator !in c.exchange
    ensures ParseContractInfo(ShowInt(c.conid) + [Separator] + c.exchange) == Parsed(c)
  {
    ParseShowInt(c.conid);
    ShowNatDigits(if c.conid < 0 then -c.conid else c.conid);
    assert Separator !in ShowInt(c.conid);
    ParseFormatted(ShowInt(c.conid), c.exchange);
  }

  /** A contract id with leading zeros still names that contract. */
  lemma ParseLeadingZerosExample()
    ensures ParseContractInfo("007" + [Separator] + "NYSE") == Parsed(Contract(7, "NYSE"))
  {
    ParseFormatted("007", "NYSE");
    assert "007"[..2] == "00" && "00"[..1] == "0" && "0"[..0] == "";
    assert DigitsValue("007") == 7;
  }

  /** "12@NYSE@X" has three pieces, so its exchange is SMART. */
  lemma ParseThreePiecesExample()
    ensures ParseContractInfo("12" + [Separator] + "NYSE" + [Separator] + "X") == Parsed(Contract(12, DefaultExchange))
  {
    ParseThreePieces("12", "NYSE", "X");
    assert "12"[..1] == "1" && "1"[..0] == "";
    assert DigitsValue("12") == 12;
  }

  /** A bare contract id, or one followed by an empty exchange, is routed to SMART. */
  lemma ParseBareConid(id: int)
    requires MinInt <= id <= MaxInt
    ensures ParseContractInfo(ShowInt(id)) == Parsed(Contract(id, DefaultExchange))
    ensures ParseContractInfo(ShowInt(id) + [Separator]) == Parsed(Contract(id, DefaultExchange))
  {
    ParseShowInt(id);
    ShowNatDigits(if id < 0 then -id else id);
    assert Separator !in ShowInt(id);
    var s := ShowInt(id) + [Separator];
    assert s[|s| - 1] == Separator;
    SplitAtFirst(ShowInt(id), [], Separator);
    assert ShowInt(id) + [Separator] + [] == s;
    assert SplitAll(s, Separator) == [ShowInt(id), []];
    assert DropTrailingEmpty([ShowInt(id), []]) == DropTrailingEmpty([ShowInt(id)]);
  }
}
