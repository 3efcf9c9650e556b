/** FTN addresses (scripts/ubb_ftn.py): `zone:net/node` with an optional `.point`, read and printed. */
module Fidonet {
  import opened Wrappers
  import opened Text

  datatype Address = Address(zone: nat, net: nat, node: nat, point: Option<nat>)

  datatype Outcome = Accepted(text: string) | NotAnAddress | OutOfRange

  /** A number, the separator after it and the rest, if the text starts that way. */
  function Field(s: string, separator: char): Option<(nat, string)> {
    var n := DigitRun(s);
    if n == 0 || n == |s| || s[n] != separator then None else Some((Value(s[..n]), s[n + 1..]))
  }

  /** The last fields, `\d+(?:\.\d+)?` to the end. */
  function Tail(s: string): Option<(nat, Option<nat>)> {
    var n := DigitRun(s);
    if n == 0 then None
    else if n == |s| then Some((Value(s), None))
    else if s[n] == '.' && Numeral(s[n + 1..]) then Some((Value(s[..n]), Some(Value(s[n + 1..]))))
    else None
  }

  /** `_ADDR.fullmatch` and the numbers of its groups. */
  function Parse(s: string): Option<Address> {
    match Field(s, ':')
    case None => None
    case Some((zone, afterZone)) =>
      match Field(afterZone, '/')
      case None => None
      case Some((net, afterNet)) =>
        match Tail(afterNet)
        case None => None
        case Some((node, point)) => Some(Address(zone, net, node, point))
  }

  predicate InRange(a: Address) {
    0 < a.zone <= 65535 && a.net <= 65535 && a.node <= 65535 && a.point.GetOr(0) <= 65535
  }

  function Print(a: Address): string {
    Decimal(a.zone) + ":" + Decimal(a.net) + "/" + Decimal(a.node)
    + (match a.point case Some(p) => "." + Decimal(p) case None => "")
  }

  /** `ftn_address` */
  function FtnAddress(s: string): Outcome {
    match Parse(s)
    case None => NotAnAddress
    case Some(a) => if InRange(a) then Accepted(Print(a)) else OutOfRange
  }

  // ---------------------------------------------------------------- the shape of an address

  function Joined(zone: string, net: string, node: string, point: Option<string>): string {
    zone + ":" + net + "/" + node + (match point case Some(p) => "." + p case None => "")
  }

  /** `s` is spelled from these numerals, and they have the values of `a`. */
  ghost predicate Spells(s: string, a: Address, zone: string, net: string, node: string, point: Option<string>) {
    && Numeral(zone) && Numeral(net) && Numeral(node) && (point.Some? ==> Numeral(point.value))
    && s == Joined(zone, net, node, point)
    && a.zone == Value(zone) && a.net == Value(net) && a.node == Value(node)
    && a.point == (if point.Some? then Some(Value(point.value)) else None)
  }

  lemma FieldOf(digits: string, separator: char, rest: string)
    requires Numeral(digits) && !IsDigit(separator)
    ensures Field(digits + [separator] + rest, separator) == Some((Value(digits), rest))
  {
    var s := digits + [separator] + rest;
    assert s == digits + ([separator] + rest);
    DigitRunOf(digits, [separator] + rest);
    assert s[..|digits|] == digits && s[|digits| + 1..] == rest;
  }

  lemma TailOf(node: string, point: Option<string>)
    requires Numeral(node) && (point.Some? ==> Numeral(point.value))
    ensures Tail(node + (match point case Some(p) => "." + p case None => ""))
         == Some((Value(node), if point.Some? then Some(Value(point.value)) else None))
  {
    match point
    case None =>
      assert node + "" == node;
      DigitRunOf(node, "");
    case Some(p) =>
      var s := node + ("." + p);
      DigitRunOf(node, "." + p);
      assert s[..|node|] == node && s[|node| + 1..] == p;
  }

  /** Any spelling of an address is read as that address. */
  lemma SpelledIsParsed(s: string, a: Address, zone: string, net: string, node: string, point: Option<string>)
    requires Spells(s, a, zone, net, node, point)
    ensures Parse(s) == Some(a)
  {
    hide Field, Tail;
    var end := match point case Some(p) => "." + p case None => "";
    var afterNet := node + end;
    var afterZone := net + "/" + afterNet;
    assert s == zone + ":" + afterZone;
    FieldOf(zone, ':', afterZone);
    FieldOf(net, '/', afterNet);
    TailOf(node, point);
  }

  lemma FieldSplits(s: string, separator: char) returns (digits: string)
    requires Field(s, separator).Some?
    ensures Numeral(digits) && s == digits + [separator] + Field(s, separator).value.1
    ensures Field(s, separator).value.0 == Value(digits)
  {
    var n := DigitRun(s);
    digits := s[..n];
    assert s == s[..n] + [s[n]] + s[n + 1..];
  }

  lemma TailSplits(s: string) returns (node: string, point: Option<string>)
    requires Tail(s).Some?
    ensures Numeral(node) && (point.Some? ==> Numeral(point.value))
    ensures s == node + (match point case Some(p) => "." + p case None => "")
    ensures Tail(s).value == (Value(node), if point.Some? then Some(Value(point.value)) else None)
  {
    var n := DigitRun(s);
    node := s[..n];
    if n == |s| {
      point := None;
      assert node == s;
    } else {
      point := Some(s[n + 1..]);
      assert s == s[..n] + ([s[n]] + s[n + 1..]);
    }
  }

  /** What is read was spelled that way: nothing else is taken for an address. */
  lemma ParsedIsSpelled(s: string) returns (zone: string, net: string, node: string, point: Option<string>)
    requires Parse(s).Some?
    ensures Spells(s, Parse(s).value, zone, net, node, point)
  {
    hide Field, Tail;
    zone := FieldSplits(s, ':');
    var afterZone := Field(s, ':').value.1;
    net := FieldSplits(afterZone, '/');
    var afterNet := Field(afterZone, '/').value.1;
    node, point := TailSplits(afterNet);
    assert s == zone + ":" + (net + "/" + afterNet);
    assert s == Joined(zone, net, node, point);
  }

  // ---------------------------------------------------------------- the theorems

  /** Printing and reading gives the address back. */
  lemma ParsePrint(a: Address)
    ensures Parse(Print(a)) == Some(a)
    ensures InRange(a) ==> FtnAddress(Print(a)) == Accepted(Print(a))
  {
    var point := match a.point case Some(p) => Some(Decimal(p)) case None => None;
    SpelledIsParsed(Print(a), a, Decimal(a.zone), Decimal(a.net), Decimal(a.node), point);
  }

  /** The canonical text is its own canonical text. */
  lemma FtnAddressIsIdempotent(s: string)
    requires FtnAddress(s).Accepted?
    ensures FtnAddress(FtnAddress(s).text) == FtnAddress(s)
  {
    ParsePrint(Parse(s).value);
  }

  /** Two accepted texts have the same canonical text exactly when they have the same numbers and both or
      neither a point; a written point 0 is a point. */
  lemma SameTextIffSameAddress(s: string, t: string)
    requires FtnAddress(s).Accepted? && FtnAddress(t).Accepted?
    ensures FtnAddress(s) == FtnAddress(t) <==> Parse(s) == Parse(t)
  {
    ParsePrint(Parse(s).value);
    ParsePrint(Parse(t).value);
  }

  /** A text is accepted exactly when it spells an address in range, with any number of leading zeros. */
  lemma AcceptedIffSpelled(s: string)
    ensures FtnAddress(s).Accepted? <==>
              exists a, zone, net, node, point :: Spells(s, a, zone, net, node, point) && InRange(a)
  {
    if FtnAddress(s).Accepted? {
      var zone, net, node, point := ParsedIsSpelled(s);
      assert Spells(s, Parse(s).value, zone, net, node, point);
    }
    if a, zone, net, node, point :| Spells(s, a, zone, net, node, point) && InRange(a) {
      SpelledIsParsed(s, a, zone, net, node, point);
    }
  }

  /** The canonical text has no leading zeros, so it is never longer than what was written. */
  lemma CanonicalIsShortest(s: string)
    requires FtnAddress(s).Accepted?
    ensures |FtnAddress(s).text| <= |s|
  {
    var zone, net, node, point := ParsedIsSpelled(s);
    DecimalIsShortest(zone);
    DecimalIsShortest(net);
    DecimalIsShortest(node);
    if point.Some? {
      DecimalIsShortest(point.value);
    }
  }

  lemma {:induction false} DecimalIsShortest(s: string)
    requires Numeral(s)
    ensures |Decimal(Value(s))| <= |s|
  {
    var front := s[..|s| - 1];
    if front == [] {
      assert Value(front) == 0;
    } else {
      DecimalIsShortest(front);
      assert Value(s) / 10 == Value(front);
    }
  }
}
