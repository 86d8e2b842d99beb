/**
 What one kernel log line must say to be the denial of a given worker: the audit line's grammar, its
 fields, and the values they must have.
 */
module DenialRecords {
  import opened Wrappers
  import opened Text
  import opened KernelCapture

  const PROFILE: string := "night-shift-kvp-public-probe"
  const AUDIT: string := "audit: type=1400 audit("
  const MAX_KERNEL_PRIORITY: nat := 7

  datatype Case = RuntimeWrite | PoolSiblingWrite | OutsideExec

  /** The operation, path and access each case is denied. */
  function Catalogue(c: Case): (string, string, string) {
    match c
    case RuntimeWrite => ("open", "/run/night-shift-bootstrap/denied-write", "w")
    case PoolSiblingWrite => ("open", "/var/lib/hyperv/.kvp_pool_denied", "w")
    case OutsideExec => ("exec", "/run/night-shift-bootstrap/denied-exec", "x")
  }

  // ----- fields -----

  predicate IsNameChar(c: char) { 'a' <= c <= 'z' || IsDigit(c) || c == '_' }

  predicate IsBare(c: char) {
    'a' <= c <= 'z' || 'A' <= c <= 'Z' || IsDigit(c) || c in {'_', '.', '/', ':', '+', '(', ')', '-'}
  }

  predicate IsQuotable(c: char) { c !in {'"', '\\', '\r', '\n'} }

  /** How many of the first characters satisfy `p`. */
  function Span(s: string, p: char -> bool): (n: nat)
    ensures n <= |s| && (forall k :: 0 <= k < n ==> p(s[k])) && (n < |s| ==> !p(s[n]))
  {
    if s == "" || !p(s[0]) then 0 else 1 + Span(s[1..], p)
  }

  lemma {:induction false} SpanOf(front: string, rest: string, p: char -> bool)
    requires forall k :: 0 <= k < |front| ==> p(front[k])
    requires rest == "" || !p(rest[0])
    ensures Span(front + rest, p) == |front|
  {
    if front != "" {
      assert (front + rest)[1..] == front[1..] + rest;
      SpanOf(front[1..], rest, p);
    } else {
      assert front + rest == rest;
    }
  }

  /** A field off the front of a line, and what follows it. */
  datatype Token = Token(name: string, value: string, rest: string)

  /** A value and what follows it: quoted, or of bare characters. */
  function MatchValue(s: string): (v: Option<(string, string)>)
    ensures v.Some? ==> |v.value.1| < |s| && v.value.1 == s[|s| - |v.value.1|..]
  {
    if s != "" && s[0] == '"' then
      var n := Span(s[1..], IsQuotable);
      if n + 1 < |s| && s[n + 1] == '"' then Some((s[1..n + 1], s[n + 2..])) else None
    else
      var n := Span(s, IsBare);
      if n > 0 then Some((s[..n], s[n..])) else None
  }

  /** One `name=value`, up to the following blank or the end. */
  function MatchField(s: string): (m: Option<Token>)
    ensures m.Some? ==> |m.value.rest| < |s| && m.value.rest == s[|s| - |m.value.rest|..]
  {
    var n := Span(s, IsNameChar);
    if n == 0 || !('a' <= s[0] <= 'z') || n == |s| || s[n] != '=' then None
    else
      var v := MatchValue(s[n + 1..]);
      if v.None? then None
      else if v.value.1 == "" then Some(Token(s[..n], v.value.0, ""))
      else if v.value.1[0] == ' ' then Some(Token(s[..n], v.value.0, v.value.1[1..]))
      else None
  }

  /** All fields of a line; none when one is malformed, repeated or unprintable. */
  function Fields(s: string, seen: map<string, string>): Option<map<string, string>>
    decreases |s|
  {
    if s == "" then Some(seen)
    else
      var m := MatchField(s);
      if m.None? || m.value.name in seen || !Printable(m.value.value) then None
      else Fields(m.value.rest, seen[m.value.name := m.value.value])
  }

  /** The loop that advances a position and fills the dictionary. */
  method ParseFields(raw: string) returns (r: Option<map<string, string>>)
    ensures r == Fields(raw, map[])
  {
    hide MatchField, Printable;
    var fields: map<string, string> := map[];
    var position := 0;
    assert raw[0..] == raw;
    while position < |raw|
      invariant position <= |raw|
      invariant Fields(raw[position..], fields) == Fields(raw, map[])
    {
      var m := MatchField(raw[position..]);
      if m.None? || m.value.name in fields || !Printable(m.value.value) {
        return None;
      }
      Suffix(raw, position, m.value.rest);
      fields := fields[m.value.name := m.value.value];
      position := |raw| - |m.value.rest|;
    }
    r := Some(fields);
  }

  lemma Suffix(raw: string, position: nat, rest: string)
    requires position <= |raw| && |rest| < |raw[position..]| && rest == raw[position..][|raw[position..]| - |rest|..]
    ensures position < |raw| - |rest| && raw[|raw| - |rest|..] == rest
  {
  }

  // ----- printing, for the round trip -----

  /** A field as the kernel writes it, its value in quotes or bare. */
  datatype Item = Item(name: string, value: string, quoted: bool)

  predicate GoodName(s: string) {
    s != "" && 'a' <= s[0] <= 'z' && forall k :: 0 <= k < |s| ==> IsNameChar(s[k])
  }

  predicate GoodQuoted(s: string) {
    Printable(s) && forall k :: 0 <= k < |s| ==> IsQuotable(s[k])
  }

  predicate GoodBare(s: string) {
    s != "" && forall k :: 0 <= k < |s| ==> IsBare(s[k])
  }

  predicate GoodItem(item: Item) {
    GoodName(item.name) && if item.quoted then GoodQuoted(item.value) else GoodBare(item.value)
  }

  predicate GoodItems(items: seq<Item>) {
    && (forall k :: 0 <= k < |items| ==> GoodItem(items[k]))
    && (forall i, j :: 0 <= i < j < |items| ==> items[i].name != items[j].name)
  }

  predicate AreNew(items: seq<Item>, seen: map<string, string>) {
    forall k :: 0 <= k < |items| ==> items[k].name !in seen
  }

  function PrintValue(item: Item): string {
    if item.quoted then "\"" + item.value + "\"" else item.value
  }

  function PrintItem(item: Item): string {
    item.name + ("=" + PrintValue(item))
  }

  /** Fields with a blank between any two of them, and perhaps one behind the last. */
  function PrintItems(items: seq<Item>, trailing: bool): string
    decreases |items|, 1
  {
    if items == [] then "" else PrintItem(items[0]) + Behind(items, trailing)
  }

  function Behind(items: seq<Item>, trailing: bool): string
    requires items != []
    decreases |items|, 0
  {
    if |items| > 1 then " " + PrintItems(items[1..], trailing) else if trailing then " " else ""
  }

  function ItemMap(items: seq<Item>, seen: map<string, string>): map<string, string> {
    if items == [] then seen else ItemMap(items[1..], seen[items[0].name := items[0].value])
  }

  lemma MatchQuoted(value: string, rest: string)
    requires GoodQuoted(value)
    ensures MatchValue("\"" + value + "\"" + rest) == Some((value, rest))
  {
    var s := "\"" + value + "\"" + rest;
    assert s[1..] == value + ("\"" + rest);
    SpanOf(value, "\"" + rest, IsQuotable);
    assert s[1..|value| + 1] == value && s[|value| + 2..] == rest;
  }

  lemma MatchBare(value: string, rest: string)
    requires GoodBare(value) && (rest == "" || rest[0] == ' ')
    ensures MatchValue(value + rest) == Some((value, rest))
  {
    var s := value + rest;
    assert s[0] == value[0] && IsBare(value[0]);
    SpanOf(value, rest, IsBare);
    assert s[..|value|] == value && s[|value|..] == rest;
  }

  lemma NameSpan(name: string, rest: string)
    requires GoodName(name)
    ensures Span(name + ("=" + rest), IsNameChar) == |name|
  {
    SpanOf(name, "=" + rest, IsNameChar);
  }

  lemma MatchPrinted(item: Item, rest: string)
    requires GoodItem(item) && (rest == "" || rest[0] == ' ')
    ensures MatchField(PrintItem(item) + rest)
         == Some(Token(item.name, item.value, if rest == "" then "" else rest[1..]))
  {
    hide *;
    var valued := PrintValue(item) + rest;
    PrintedApart(item, rest);
    ValueMatches(item, rest);
    NameMatches(item, valued);
    FieldIs(PrintItem(item) + rest, item.name, valued, item.value, rest);
  }

  lemma PrintedApart(item: Item, rest: string)
    ensures PrintItem(item) + rest == item.name + ("=" + (PrintValue(item) + rest))
  {
    hide PrintValue;
  }

  lemma ValueMatches(item: Item, rest: string)
    requires GoodItem(item) && (rest == "" || rest[0] == ' ')
    ensures MatchValue(PrintValue(item) + rest) == Some((item.value, rest))
  {
    hide MatchValue, IsQuotable, IsBare, Printable, GoodQuoted, GoodBare, IsNameChar;
    if item.quoted {
      MatchQuoted(item.value, rest);
    } else {
      MatchBare(item.value, rest);
    }
  }

  lemma NameMatches(item: Item, valued: string)
    requires GoodItem(item)
    ensures Span(item.name + ("=" + valued), IsNameChar) == |item.name|
    ensures item.name != "" && 'a' <= item.name[0] <= 'z'
  {
    NameSpan(item.name, valued);
    hide Span, IsQuotable, IsBare, Printable, GoodQuoted, GoodBare;
  }

  lemma FieldIs(s: string, name: string, valued: string, value: string, rest: string)
    requires s == name + ("=" + valued) && name != "" && 'a' <= name[0] <= 'z' && Span(s, IsNameChar) == |name|
    requires MatchValue(valued) == Some((value, rest)) && (rest == "" || rest[0] == ' ')
    ensures MatchField(s) == Some(Token(name, value, if rest == "" then "" else rest[1..]))
  {
    hide MatchValue, Span, IsNameChar;
    assert s[..|name|] == name && s[|name| + 1..] == valued;
  }

  /** Parsing what was printed gives the fields back. */
  lemma {:induction false} FieldsOfPrinted(items: seq<Item>, trailing: bool, seen: map<string, string>)
    requires GoodItems(items) && AreNew(items, seen)
    ensures Fields(PrintItems(items, trailing), seen) == Some(ItemMap(items, seen))
    decreases |items|
  {
    hide *;
    if items == [] {
      NoFields(trailing, seen);
    } else {
      HeadItem(items, seen);
      ItemParts(items[0]);
      BehindRest(items, trailing);
      MatchPrinted(items[0], Behind(items, trailing));
      FieldsOfPrinted(items[1..], trailing, seen[items[0].name := items[0].value]);
      FirstField(items, trailing, seen);
    }
  }

  lemma NoFields(trailing: bool, seen: map<string, string>)
    ensures PrintItems([], trailing) == "" && Fields("", seen) == Some(ItemMap([], seen))
  {
  }

  lemma HeadItem(items: seq<Item>, seen: map<string, string>)
    requires GoodItems(items) && AreNew(items, seen) && items != []
    ensures GoodItem(items[0]) && items[0].name !in seen
    ensures GoodItems(items[1..]) && AreNew(items[1..], seen[items[0].name := items[0].value])
  {
    hide GoodItem;
  }

  lemma ItemParts(item: Item)
    requires GoodItem(item)
    ensures Printable(item.value) && PrintItem(item) != ""
  {
  }

  lemma BehindRest(items: seq<Item>, trailing: bool)
    requires items != []
    ensures var rest := Behind(items, trailing);
      && (rest == "" || rest[0] == ' ') && (if rest == "" then "" else rest[1..]) == PrintItems(items[1..], trailing)
  {
    hide PrintItem;
  }

  lemma FirstField(items: seq<Item>, trailing: bool, seen: map<string, string>)
    requires items != [] && items[0].name !in seen && Printable(items[0].value) && PrintItem(items[0]) != ""
    requires MatchField(PrintItem(items[0]) + Behind(items, trailing))
          == Some(Token(items[0].name, items[0].value, PrintItems(items[1..], trailing)))
    ensures Fields(PrintItems(items, trailing), seen)
         == Fields(PrintItems(items[1..], trailing), seen[items[0].name := items[0].value])
    ensures ItemMap(items, seen) == ItemMap(items[1..], seen[items[0].name := items[0].value])
  {
    hide MatchField, Printable, PrintItem, Behind;
  }

  /** And whatever parses was printed: the items are there to be found. */
  lemma {:induction false} ParsedIsPrinted(s: string, seen: map<string, string>) returns (items: seq<Item>, trailing: bool)
    requires Fields(s, seen).Some?
    ensures GoodItems(items) && AreNew(items, seen) && (s == "" <==> items == [])
    ensures s == PrintItems(items, trailing) && Fields(s, seen) == Some(ItemMap(items, seen))
    decreases |s|
  {
    hide *;
    if s == "" {
      items, trailing := [], false;
      NoItems(seen);
      NoFields(trailing, seen);
    } else {
      FieldsStep(s, seen);
      var m := MatchField(s).value;
      var more;
      more, trailing := ParsedIsPrinted(m.rest, seen[m.name := m.value]);
      var item, blank := MatchedIsPrinted(s);
      if more == [] {
        trailing := blank;
      }
      items := [item] + more;
      MoreItems(item, more, seen);
      ItemsJoin(s, item, more, blank, trailing, m.rest);
      FirstOfMap(item, more, seen);
    }
  }

  lemma NoItems(seen: map<string, string>)
    ensures GoodItems([]) && AreNew([], seen)
  {
  }

  lemma FieldsStep(s: string, seen: map<string, string>)
    requires Fields(s, seen).Some? && s != ""
    ensures var m := MatchField(s);
      && m.Some? && m.value.name !in seen && Printable(m.value.value) && |m.value.rest| < |s|
      && Fields(s, seen) == Fields(m.value.rest, seen[m.value.name := m.value.value])
  {
    hide MatchField, Printable;
  }

  /** What one match consumed is a printed item, with a blank behind it unless the line ends there. */
  lemma MatchedIsPrinted(s: string) returns (item: Item, blank: bool)
    requires MatchField(s).Some? && Printable(MatchField(s).value.value)
    ensures var m := MatchField(s).value;
      && GoodItem(item) && item.name == m.name && item.value == m.value && (!blank ==> m.rest == "")
      && s == PrintItem(item) + ((if blank then " " else "") + m.rest)
  {
    var n, value, behind := FieldParts(s);
    var m, tail := MatchField(s).value, s[n + 1..];
    ValueIsPrinted(tail);
    hide *;
    blank := behind != "";
    item := Item(s[..n], value, tail[0] == '"');
    ItemIsGood(item);
    PrintedAs(item);
    assert behind == (if blank then " " else "") + m.rest;
    Resplit(s, n, tail, PrintValue(item), behind);
  }

  lemma ItemIsGood(item: Item)
    requires GoodName(item.name) && (if item.quoted then GoodQuoted(item.value) else GoodBare(item.value))
    ensures GoodItem(item)
  {
  }

  lemma PrintedAs(item: Item)
    ensures PrintValue(item) == if item.quoted then "\"" + item.value + "\"" else item.value
    ensures PrintItem(item) == item.name + ("=" + PrintValue(item))
  {
  }

  lemma Resplit(s: string, n: nat, tail: string, value: string, behind: string)
    requires n < |s| && s[n] == '=' && tail == s[n + 1..] && tail == value + behind
    ensures s == (s[..n] + ("=" + value)) + behind
  {
  }

  lemma FieldParts(s: string) returns (n: nat, value: string, behind: string)
    requires MatchField(s).Some?
    ensures n < |s| && s[n] == '=' && GoodName(s[..n]) && MatchValue(s[n + 1..]) == Some((value, behind))
    ensures MatchField(s).value.name == s[..n] && MatchField(s).value.value == value
    ensures behind == (if behind == "" then "" else " ") + MatchField(s).value.rest
  {
    NameIsGood(s);
    hide MatchValue, IsNameChar, Span, GoodName;
    n := Span(s, IsNameChar);
    value, behind := MatchValue(s[n + 1..]).value.0, MatchValue(s[n + 1..]).value.1;
  }

  lemma NameIsGood(s: string)
    ensures var n := Span(s, IsNameChar); n > 0 && 'a' <= s[0] <= 'z' ==> GoodName(s[..n])
  {
    hide IsNameChar, Span;
  }

  lemma ValueIsPrinted(tail: string)
    requires MatchValue(tail).Some?
    ensures var v := MatchValue(tail).value;
      && tail != "" && var quoted := tail[0] == '"';
      && tail == (if quoted then "\"" + v.0 + "\"" else v.0) + v.1
      && (quoted && Printable(v.0) ==> GoodQuoted(v.0)) && (!quoted ==> GoodBare(v.0))
  {
    hide Printable;
    if tail[0] == '"' {
      var n := Span(tail[1..], IsQuotable);
      assert tail == "\"" + tail[1..n + 1] + "\"" + tail[n + 2..];
      assert tail[1..n + 1] == tail[1..][..n];
    }
  }

  lemma MoreItems(item: Item, more: seq<Item>, seen: map<string, string>)
    requires GoodItem(item) && item.name !in seen && GoodItems(more) && AreNew(more, seen[item.name := item.value])
    ensures GoodItems([item] + more) && AreNew([item] + more, seen)
  {
    hide GoodItem;
    var items := [item] + more;
    forall k | 0 < k < |items|
      ensures GoodItem(items[k]) && items[k].name != item.name && items[k].name !in seen
    {
      assert items[k] == more[k - 1];
    }
  }

  lemma ItemsJoin(s: string, item: Item, more: seq<Item>, blank: bool, trailing: bool, rest: string)
    requires s == PrintItem(item) + ((if blank then " " else "") + rest)
    requires if more == [] then trailing == blank && rest == "" else blank && rest == PrintItems(more, trailing)
    ensures s == PrintItems([item] + more, trailing)
  {
    hide PrintItem;
    assert ([item] + more)[1..] == more;
  }

  lemma FirstOfMap(item: Item, more: seq<Item>, seen: map<string, string>)
    ensures ItemMap([item] + more, seen) == ItemMap(more, seen[item.name := item.value])
  {
    assert ([item] + more)[1..] == more;
  }

  // ----- the audit line -----

  datatype Audit = Audit(serial: nat, fields: string)

  /** A run of one to `most` digits, and what follows the character behind it. */
  function Digits(s: string, most: nat, stop: char): Option<(string, string)> {
    var n := Span(s, IsDigit);
    if 0 < n <= most && n < |s| && s[n] == stop then Some((s[..n], s[n + 1..])) else None
  }

  function SplitAudit(body: string): Option<Audit> {
    match Drop(body, AUDIT)
    case None => None
    case Some(stamped) =>
      match Digits(stamped, 12, '.')
      case None => None
      case Some((_, fraction)) =>
        match Digits(fraction, 9, ':')
        case None => None
        case Some((_, numbered)) =>
          match Digits(numbered, 20, ')')
          case None => None
          case Some((serial, rest)) =>
            match (ParseDecimal(serial), Drop(rest, ": "))
            case (Some(n), Some(fields)) => if fields == "" then None else Some(Audit(n, fields))
            case _ => None
  }

  predicate IsPid(s: string) {
    1 <= |s| <= 7 && s[0] != '0' && IsDigits(s)
  }

  /** A pid is a positive decimal number of at most seven digits, written without leading zeros. */
  lemma PidExactly(s: string)
    ensures IsPid(s) <==> exists n: nat :: 1 <= n <= 9_999_999 && s == Decimal(n)
  {
    if IsPid(s) {
      CanonicalDigits(s);
      assert s == Decimal(DecimalValue(s));
      DigitsBound(s);
    }
    if n: nat :| 1 <= n <= 9_999_999 && s == Decimal(n) {
      DecimalShort(n, 7);
      DecimalLeads(n);
    }
  }

  lemma {:induction false} CanonicalDigits(s: string)
    requires IsDigits(s) && s[0] != '0'
    ensures DecimalValue(s) > 0 && Decimal(DecimalValue(s)) == s
    decreases |s|
  {
    if |s| > 1 {
      var front, last := s[..|s| - 1], s[|s| - 1];
      CanonicalDigits(front);
      var n := DecimalValue(s);
      assert n == 10 * DecimalValue(front) + DigitValue(last) && n / 10 == DecimalValue(front) && n % 10 == DigitValue(last);
      assert Decimal(n) == Decimal(n / 10) + [DigitChar(n % 10)] == front + [last] == s;
    }
  }

  function Power(n: nat): nat {
    if n == 0 then 1 else 10 * Power(n - 1)
  }

  lemma {:induction false} DigitsBelow(s: string)
    requires IsDigits(s)
    ensures DecimalValue(s) < Power(|s|)
    decreases |s|
  {
    if |s| > 1 {
      DigitsBelow(s[..|s| - 1]);
    }
  }

  lemma DigitsBound(s: string)
    requires IsDigits(s) && |s| <= 7
    ensures DecimalValue(s) <= 9_999_999
  {
    DigitsBelow(s);
    assert Power(1) == 10 && Power(2) == 100 && Power(3) == 1000 && Power(4) == 10_000;
    assert Power(5) == 100_000 && Power(6) == 1_000_000 && Power(7) == 10_000_000;
  }

  lemma {:induction false} DecimalShort(n: nat, digits: nat)
    requires digits > 0 && n < Power(digits)
    ensures |Decimal(n)| <= digits
    decreases digits
  {
    if n >= 10 {
      DecimalShort(n / 10, digits - 1);
    }
  }

  lemma {:induction false} DecimalLeads(n: nat)
    requires n > 0
    ensures Decimal(n)[0] != '0'
    decreases n
  {
    if n >= 10 {
      DecimalLeads(n / 10);
    }
  }

  /** The values a denial of this case must have. */
  predicate Required(c: Case, fields: map<string, string>) {
    var (operation, path, mask) := Catalogue(c);
    && Has(fields, "apparmor", "DENIED") && Has(fields, "operation", operation) && Has(fields, "profile", PROFILE)
    && Has(fields, "name", path) && Has(fields, "requested_mask", mask) && Has(fields, "denied_mask", mask)
    && Has(fields, "fsuid", "0") && Has(fields, "ouid", "0")
    && ("class" in fields ==> fields["class"] == "file") && ("error" in fields ==> fields["error"] == "-13")
  }

  predicate Has(fields: map<string, string>, name: string, value: string) {
    name in fields && fields[name] == value
  }

  /** Whether these fields tell of the worker, and then of its denial. */
  function Decide(c: Case, pid: nat, fields: map<string, string>, serial: nat): Attribution {
    if "pid" !in fields || !IsPid(fields["pid"]) then Improper
    else if DecimalValue(fields["pid"]) != pid then Unrelated
    else if Required(c, fields) then Denial(serial) else Improper
  }

  /** What the correlator makes of one record's body. */
  function Attribute(c: Case, pid: nat, priority: nat, body: string): Attribution {
    if !Mentions(body, "apparmor=") && !Mentions(body, "type=1400") then Unrelated
    else if priority > MAX_KERNEL_PRIORITY then Improper
    else
      var audit := SplitAudit(body);
      if audit.None? || !(0 < audit.value.serial <= MAX_COUNTER) then Improper
      else
        var fields := Fields(audit.value.fields, map[]);
        if fields.None? then Improper else Decide(c, pid, fields.value, audit.value.serial)
  }

  predicate IsRun(s: string, most: nat) {
    0 < |s| <= most && IsDigits(s)
  }

  /** An audit line around its fields. */
  function AuditText(seconds: string, fraction: string, serial: string, fields: string): string {
    AUDIT + (seconds + ("." + (fraction + (":" + (serial + (")" + (": " + fields)))))))
  }

  lemma DigitsOf(run: string, stop: char, rest: string, most: nat)
    requires IsRun(run, most) && !IsDigit(stop)
    ensures Digits(run + ([stop] + rest), most, stop) == Some((run, rest))
  {
    SpanOf(run, [stop] + rest, IsDigit);
    var s := run + ([stop] + rest);
    assert s[..|run|] == run && s[|run| + 1..] == rest;
  }

  lemma DigitsAre(s: string, most: nat, stop: char)
    requires Digits(s, most, stop).Some?
    ensures var (run, rest) := Digits(s, most, stop).value; IsRun(run, most) && s == run + ([stop] + rest)
  {
    var n := Span(s, IsDigit);
    assert s == s[..n] + ([s[n]] + s[n + 1..]);
  }

  lemma DropIs(s: string, prefix: string)
    requires Drop(s, prefix).Some?
    ensures s == prefix + Drop(s, prefix).value
  {
  }

  lemma SplitAuditOf(seconds: string, fraction: string, serial: string, fields: string)
    requires IsRun(seconds, 12) && IsRun(fraction, 9) && IsRun(serial, 20) && fields != ""
    ensures SplitAudit(AuditText(seconds, fraction, serial, fields)) == Some(Audit(DecimalValue(serial), fields))
  {
    var d := ": " + fields;
    var c := serial + (")" + d);
    var b := fraction + (":" + c);
    var a := seconds + ("." + b);
    hide Digits, Drop;
    DropOf(AUDIT, a);
    DigitsOf(seconds, '.', b, 12);
    DigitsOf(fraction, ':', c, 9);
    DigitsOf(serial, ')', d, 20);
    DropOf(": ", fields);
  }

  /** A line that splits was put together so. */
  lemma SplitAuditIs(body: string) returns (seconds: string, fraction: string, serial: string)
    requires SplitAudit(body).Some?
    ensures IsRun(seconds, 12) && IsRun(fraction, 9) && IsRun(serial, 20)
    ensures var a := SplitAudit(body).value;
      a.fields != "" && a.serial == DecimalValue(serial) && body == AuditText(seconds, fraction, serial, a.fields)
  {
    hide Digits, Drop;
    var stamped := Drop(body, AUDIT).value;
    var numbered := Digits(Digits(stamped, 12, '.').value.1, 9, ':').value.1;
    seconds, fraction := Digits(stamped, 12, '.').value.0, Digits(Digits(stamped, 12, '.').value.1, 9, ':').value.0;
    serial := Digits(numbered, 20, ')').value.0;
    DropIs(body, AUDIT);
    DigitsAre(stamped, 12, '.');
    DigitsAre(Digits(stamped, 12, '.').value.1, 9, ':');
    DigitsAre(numbered, 20, ')');
    DropIs(Digits(numbered, 20, ')').value.1, ": ");
  }

  lemma AuditMentions(seconds: string, fraction: string, serial: string, fields: string)
    ensures Mentions(AuditText(seconds, fraction, serial, fields), "type=1400")
  {
    var s := AuditText(seconds, fraction, serial, fields);
    assert s[..|AUDIT|] == AUDIT;
    assert s[7..][..9] == AUDIT[7..16] == "type=1400";
  }

  /** A printed line: stamps, serial, and fields in any mix of quoted and bare. */
  datatype Line =
    Line(seconds: string, fraction: string, serial: string, items: seq<Item>, trailing: bool)

  predicate GoodLine(l: Line) {
    && IsRun(l.seconds, 12) && IsRun(l.fraction, 9) && IsRun(l.serial, 20) && 0 < DecimalValue(l.serial) <= MAX_COUNTER
    && l.items != [] && GoodItems(l.items)
  }

  function PrintLine(l: Line): string {
    AuditText(l.seconds, l.fraction, l.serial, PrintItems(l.items, l.trailing))
  }

  /** A line printed in the kernel's audit format is judged by its fields alone. */
  lemma PrintedLineIsJudged(c: Case, pid: nat, priority: nat, l: Line)
    requires GoodLine(l) && priority <= MAX_KERNEL_PRIORITY
    ensures Attribute(c, pid, priority, PrintLine(l)) == Decide(c, pid, ItemMap(l.items, map[]), DecimalValue(l.serial))
  {
    hide Mentions, SplitAudit, Fields, Decide, IsRun, AuditText, ItemMap, GoodItems;
    var fields := PrintItems(l.items, l.trailing);
    AuditMentions(l.seconds, l.fraction, l.serial, fields);
    AllNew(l.items);
    HeadItem(l.items, map[]);
    ItemParts(l.items[0]);
    FieldsOfPrinted(l.items, l.trailing, map[]);
    SplitAuditOf(l.seconds, l.fraction, l.serial, fields);
  }

  lemma AllNew(items: seq<Item>)
    ensures AreNew(items, map[])
  {
  }

  /** Some field of this name has this value. */
  predicate Says(items: seq<Item>, name: string, value: string) {
    exists k :: 0 <= k < |items| && items[k].name == name && items[k].value == value
  }

  predicate SaysOnly(items: seq<Item>, name: string, value: string) {
    forall k :: 0 <= k < |items| && items[k].name == name ==> items[k].value == value
  }

  /** The fields name the worker's pid and say everything its denial must say. */
  predicate TellsOf(c: Case, pid: nat, items: seq<Item>) {
    var (operation, path, mask) := Catalogue(c);
    && (exists k :: 0 <= k < |items| && items[k].name == "pid" && IsPid(items[k].value)
                    && DecimalValue(items[k].value) == pid)
    && Says(items, "apparmor", "DENIED") && Says(items, "operation", operation) && Says(items, "profile", PROFILE)
    && Says(items, "name", path) && Says(items, "requested_mask", mask) && Says(items, "denied_mask", mask)
    && Says(items, "fsuid", "0") && Says(items, "ouid", "0")
    && SaysOnly(items, "class", "file") && SaysOnly(items, "error", "-13")
  }

  lemma {:induction false} MapHolds(items: seq<Item>, seen: map<string, string>, name: string)
    requires GoodItems(items) && AreNew(items, seen)
    ensures var m := ItemMap(items, seen);
      && (name in m <==> name in seen || exists k :: 0 <= k < |items| && items[k].name == name)
      && (forall k :: 0 <= k < |items| && items[k].name == name ==> m[name] == items[k].value)
      && (name in seen ==> name in m && m[name] == seen[name])
    decreases |items|
  {
    hide GoodItem;
    if items != [] {
      HeadItem(items, seen);
      MapHolds(items[1..], seen[items[0].name := items[0].value], name);
      assert forall k :: 0 < k < |items| ==> items[k] == items[1..][k - 1];
    }
  }

  lemma SaysHas(items: seq<Item>, name: string, value: string)
    requires GoodItems(items)
    ensures var m := ItemMap(items, map[]);
      && (Has(m, name, value) <==> Says(items, name, value))
      && ((name in m ==> m[name] == value) <==> SaysOnly(items, name, value))
  {
    AllNew(items);
    MapHolds(items, map[], name);
    hide GoodItems, ItemMap;
  }

  lemma PidHas(items: seq<Item>, pid: nat)
    requires GoodItems(items)
    ensures var m := ItemMap(items, map[]);
      ("pid" in m && IsPid(m["pid"]) && DecimalValue(m["pid"]) == pid)
        <==> exists k :: 0 <= k < |items| && items[k].name == "pid" && IsPid(items[k].value)
                         && DecimalValue(items[k].value) == pid
  {
    AllNew(items);
    MapHolds(items, map[], "pid");
    hide GoodItems, ItemMap, IsPid, DecimalValue;
  }

  lemma DecideTells(c: Case, pid: nat, items: seq<Item>, serial: nat)
    requires GoodItems(items)
    ensures Decide(c, pid, ItemMap(items, map[]), serial).Denial? <==> TellsOf(c, pid, items)
  {
    var (operation, path, mask) := Catalogue(c);
    PidHas(items, pid);
    SaysHas(items, "apparmor", "DENIED");
    SaysHas(items, "operation", operation);
    SaysHas(items, "profile", PROFILE);
    SaysHas(items, "name", path);
    SaysHas(items, "requested_mask", mask);
    SaysHas(items, "denied_mask", mask);
    SaysHas(items, "fsuid", "0");
    SaysHas(items, "ouid", "0");
    SaysHas(items, "class", "file");
    SaysHas(items, "error", "-13");
    hide GoodItems, ItemMap, Has, Says, SaysOnly, IsPid, DecimalValue, Catalogue, PROFILE;
  }

  /** The body is a kernel-origin audit line of this serial that tells of the worker's denial. */
  ghost predicate IsDenialLine(c: Case, pid: nat, priority: nat, body: string, serial: nat) {
    priority <= MAX_KERNEL_PRIORITY && exists l :: DenialLine(c, pid, body, serial, l)
  }

  predicate DenialLine(c: Case, pid: nat, body: string, serial: nat, l: Line) {
    GoodLine(l) && body == PrintLine(l) && DecimalValue(l.serial) == serial && TellsOf(c, pid, l.items)
  }

  /** Of all bodies, exactly such lines are taken for the denial of the worker. */
  lemma DenialExactly(c: Case, pid: nat, priority: nat, body: string, serial: nat)
    ensures Attribute(c, pid, priority, body) == Denial(serial) <==> IsDenialLine(c, pid, priority, body, serial)
  {
    hide *;
    if Attribute(c, pid, priority, body) == Denial(serial) {
      var l := DenialWasPrinted(c, pid, priority, body);
    }
    if IsDenialLine(c, pid, priority, body, serial) {
      var l := LineOf(c, pid, priority, body, serial);
      PrintedLineIsJudged(c, pid, priority, l);
      DecideTells(c, pid, l.items, DecimalValue(l.serial));
      DecideSerial(c, pid, ItemMap(l.items, map[]), DecimalValue(l.serial));
    }
  }

  /** The line names, properly, another process. */
  predicate TellsOfOther(pid: nat, items: seq<Item>) {
    exists k :: 0 <= k < |items| && items[k].name == "pid" && IsPid(items[k].value) && DecimalValue(items[k].value) != pid
  }

  predicate OtherLine(pid: nat, body: string, l: Line) {
    GoodLine(l) && body == PrintLine(l) && TellsOfOther(pid, l.items)
  }

  ghost predicate IsOtherLine(pid: nat, priority: nat, body: string) {
    priority <= 7 && exists l :: OtherLine(pid, body, l)
  }

  /**
   Of all bodies, the ones passed over are those without any mark of an audit line, and the kernel's own
   well-formed lines about another process.
   */
  lemma UnrelatedExactly(c: Case, pid: nat, priority: nat, body: string)
    ensures Attribute(c, pid, priority, body) == Unrelated
      <==> || (!Mentions(body, "apparmor=") && !Mentions(body, "type=1400")) || IsOtherLine(pid, priority, body)
  {
    hide *;
    if Attribute(c, pid, priority, body) == Unrelated && !(!Mentions(body, "apparmor=") && !Mentions(body, "type=1400")) {
      var l := OtherWasPrinted(c, pid, priority, body);
    }
    if !Mentions(body, "apparmor=") && !Mentions(body, "type=1400") {
      Unmentioned(c, pid, priority, body);
    }
    if IsOtherLine(pid, priority, body) {
      var l := OtherLineOf(pid, priority, body);
      PrintedLineIsJudged(c, pid, priority, l);
      DecideOther(c, pid, l.items, DecimalValue(l.serial));
    }
  }

  /**
   And so a marked body that is neither such a line nor the denial - forged, malformed, or of the worker
   with any value amiss - refuses the interval.
   */
  lemma ImproperExactly(c: Case, pid: nat, priority: nat, body: string)
    ensures Attribute(c, pid, priority, body) == Improper <==>
      && (Mentions(body, "apparmor=") || Mentions(body, "type=1400"))
      && !IsOtherLine(pid, priority, body) && !exists serial :: IsDenialLine(c, pid, priority, body, serial)
  {
    UnrelatedExactly(c, pid, priority, body);
    forall serial: nat
      ensures Attribute(c, pid, priority, body) == Denial(serial) <==> IsDenialLine(c, pid, priority, body, serial)
    {
      DenialExactly(c, pid, priority, body, serial);
    }
    DenialIsMarked(c, pid, priority, body);
    hide *;
    if Attribute(c, pid, priority, body).Denial? {
      assert IsDenialLine(c, pid, priority, body, Attribute(c, pid, priority, body).serial);
    }
  }

  lemma DenialIsMarked(c: Case, pid: nat, priority: nat, body: string)
    ensures Attribute(c, pid, priority, body) != Unrelated ==> Mentions(body, "apparmor=") || Mentions(body, "type=1400")
  {
    hide Mentions, SplitAudit, Fields, Decide;
  }

  lemma Unmentioned(c: Case, pid: nat, priority: nat, body: string)
    requires !Mentions(body, "apparmor=") && !Mentions(body, "type=1400")
    ensures Attribute(c, pid, priority, body) == Unrelated
  {
    hide Mentions, SplitAudit, Fields, Decide;
  }

  lemma OtherLineOf(pid: nat, priority: nat, body: string) returns (l: Line)
    requires IsOtherLine(pid, priority, body)
    ensures priority <= MAX_KERNEL_PRIORITY && GoodLine(l) && GoodItems(l.items) && IsDigits(l.serial)
    ensures body == PrintLine(l) && TellsOfOther(pid, l.items)
  {
    hide TellsOfOther, PrintLine, GoodItems, DecimalValue;
    l :| OtherLine(pid, body, l);
  }

  lemma DecideOther(c: Case, pid: nat, items: seq<Item>, serial: nat)
    requires GoodItems(items)
    ensures Decide(c, pid, ItemMap(items, map[]), serial) == Unrelated <==> TellsOfOther(pid, items)
  {
    AllNew(items);
    MapHolds(items, map[], "pid");
    hide GoodItems, ItemMap, IsPid, DecimalValue, Required;
  }

  lemma OtherWasPrinted(c: Case, pid: nat, priority: nat, body: string) returns (l: Line)
    requires Attribute(c, pid, priority, body) == Unrelated
    requires Mentions(body, "apparmor=") || Mentions(body, "type=1400")
    ensures IsOtherLine(pid, priority, body)
  {
    hide Mentions, SplitAudit, Fields, Decide, AuditText, GoodItems, TellsOfOther, ItemMap, DecimalValue, AreNew, IsRun, PrintItems;
    var audit := SplitAudit(body).value;
    var seconds, fraction, serial := SplitAuditIs(body);
    var items, trailing := ParsedIsPrinted(audit.fields, map[]);
    RunIsDigits(serial, 20);
    l := Line(seconds, fraction, serial, items, trailing);
    DecideOther(c, pid, items, audit.serial);
    assert OtherLine(pid, body, l);
  }

  lemma LineOf(c: Case, pid: nat, priority: nat, body: string, serial: nat) returns (l: Line)
    requires IsDenialLine(c, pid, priority, body, serial)
    ensures priority <= MAX_KERNEL_PRIORITY && GoodLine(l) && GoodItems(l.items) && IsDigits(l.serial)
    ensures body == PrintLine(l) && DecimalValue(l.serial) == serial && TellsOf(c, pid, l.items)
  {
    hide TellsOf, PrintLine, GoodItems, DecimalValue;
    l :| DenialLine(c, pid, body, serial, l);
  }

  lemma DecideSerial(c: Case, pid: nat, fields: map<string, string>, serial: nat)
    ensures Decide(c, pid, fields, serial).Denial? ==> Decide(c, pid, fields, serial) == Denial(serial)
  {
    hide Required, IsPid;
  }

  lemma DenialWasPrinted(c: Case, pid: nat, priority: nat, body: string) returns (l: Line)
    requires Attribute(c, pid, priority, body).Denial?
    ensures IsDenialLine(c, pid, priority, body, Attribute(c, pid, priority, body).serial)
  {
    hide Mentions, SplitAudit, Fields, Decide, AuditText, GoodItems, TellsOf, ItemMap, DecimalValue, AreNew, IsRun, PrintItems;
    var audit := SplitAudit(body).value;
    var seconds, fraction, serial := SplitAuditIs(body);
    var items, trailing := ParsedIsPrinted(audit.fields, map[]);
    RunIsDigits(serial, 20);
    l := Line(seconds, fraction, serial, items, trailing);
    DecideTells(c, pid, items, audit.serial);
    DecideSerial(c, pid, ItemMap(items, map[]), audit.serial);
    assert DenialLine(c, pid, body, audit.serial, l);
  }

  lemma RunIsDigits(s: string, most: nat)
    requires IsRun(s, most)
    ensures IsDigits(s)
  {
  }

  const MAX_PID: int := 0x3F_FFFF
  const EACCES: int := 13

  function Judge(c: Case, pid: nat): (nat, string) -> Attribution {
    (priority: nat, body: string) => Attribute(c, pid, priority, body)
  }

  /** The record at `k`, and no other, shows the denial of this worker. */
  ghost predicate OnlyDenial(c: Case, pid: nat, i: Interval, k: nat, m: Match)
    requires InOrder(i.baseline, i.startUs, i.endUs, i.records)
  {
    var judge := Judge(c, pid);
    && k < |i.records| && Verdict(i, judge, k) == Denial(m.serial) && m.sequence == i.baseline + k + 1
    && forall j :: 0 <= j < |i.records| && Verdict(i, judge, j).Denial? ==> j == k
  }

  /** Correlate one refused operation with the one audit line of an interval that tells of it. */
  method CorrelateLocalDenial(c: Case, pid: int, errno: int, i: Interval) returns (r: Result<Match, Refusal>)
    ensures !(1 <= pid <= MAX_PID) || errno != EACCES ==> r == Err(BadSyscall)
    ensures r.Ok? ==> i.records != [] && Correlatable(i) && exists k :: OnlyDenial(c, pid, i, k, r.value)
    ensures 1 <= pid <= MAX_PID && errno == EACCES && Correlatable(i) && i.records != [] && r.Err? ==>
      r.error in {Malformed, Missing, Ambiguous}
  {
    hide Attribute, Verdict;
    if !(1 <= pid <= MAX_PID) || errno != EACCES {
      return Err(BadSyscall);
    }
    var judge := Judge(c, pid);
    r := Correlate(i, judge);
    if r.Ok? {
      var k := OneDenial(i, judge, |i.records|);
      assert OnlyDenial(c, pid, i, k, r.value);
    }
  }
}
