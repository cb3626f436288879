/** How heartbeats are written into the key-value store as text, and read back. */
module Codec {
  import opened HeartbeatSpec
  import opened Models

  // ---------- numbers ----------

  const MIN_INT := -0x8000_0000_0000_0000
  const MAX_INT := 0x7fff_ffff_ffff_ffff

  predicate IsDigit(c: char) { '0' <= c <= '9' }

  function Digit(n: nat): (c: char)
    requires n < 10
    ensures IsDigit(c) && DigitValue(c) == n
  {
    ('0' as int + n) as char
  }

  function DigitValue(c: char): nat
    requires IsDigit(c)
  {
    c as int - '0' as int
  }

  function NatToString(n: nat): (s: string)
    ensures s != "" && forall c :: c in s ==> IsDigit(c)
  {
    if n < 10 then [Digit(n)] else NatToString(n / 10) + [Digit(n % 10)]
  }

  function Itoa(i: int): string { if i < 0 then "-" + NatToString(-i) else NatToString(i) }

  // A non-empty run of digits.
  function ParseNat(s: string): Option<nat> {
    if s == "" || !IsDigit(s[|s| - 1]) then None
    else if |s| == 1 then Some(DigitValue(s[0]))
    else match ParseNat(s[..|s| - 1])
      case None => None
      case Some(n) => Some(10 * n + DigitValue(s[|s| - 1]))
  }

  // An optional sign and digits, within the range of a 64-bit integer.
  function Atoi(s: string): Option<int> {
    var signed := s != "" && (s[0] == '-' || s[0] == '+');
    match ParseNat(if signed then s[1..] else s)
    case None => None
    case Some(n) =>
      var magnitude: int := n;
      var i := if s[0] == '-' then -magnitude else magnitude;
      if MIN_INT <= i <= MAX_INT then Some(i) else None
  }

  lemma {:induction false} ParsePrintedNat(n: nat)
    ensures ParseNat(NatToString(n)) == Some(n)
  {
    var s := NatToString(n);
    if n >= 10 {
      ParsePrintedNat(n / 10);
      assert s[..|s| - 1] == NatToString(n / 10);
    }
  }

  /** Reading back a printed integer gives the integer. */
  lemma AtoiOfItoa(i: int)
    ensures Atoi(Itoa(i)) == if MIN_INT <= i <= MAX_INT then Some(i) else None
  {
    var n := if i < 0 then -i else i;
    ParsePrintedNat(n);
    var s := Itoa(i);
    if i < 0 {
      assert s[1..] == NatToString(n);
    } else {
      assert s[0] in NatToString(n);
    }
  }

  lemma ItoaHas(i: int)
    ensures forall c :: c in Itoa(i) ==> IsDigit(c) || c == '-'
  {
  }

  // ---------- times with one decimal ----------

  function Abs(t: int): nat { if t < 0 then -t else t }

  function PrintTenths(t: int): string {
    (if t < 0 then "-" else "") + NatToString(Abs(t) / 10) + ['.', Digit(Abs(t) % 10)]
  }

  // Digits, a point and one more digit, as a number of tenths.
  function ParseUnsignedTenths(s: string): Option<nat> {
    if |s| < 3 || s[|s| - 2] != '.' || !IsDigit(s[|s| - 1]) then None
    else match ParseNat(s[..|s| - 2])
      case None => None
      case Some(n) => Some(10 * n + DigitValue(s[|s| - 1]))
  }

  // The form in which times are printed; anything else is not a time.
  function ParseTenths(s: string): Option<int> {
    if s != "" && s[0] == '-' then
      match ParseUnsignedTenths(s[1..])
      case None => None
      case Some(n) => var magnitude: int := n; Some(-magnitude)
    else
      match ParseUnsignedTenths(s)
      case None => None
      case Some(n) => Some(n)
  }

  lemma ParseWithTenths(whole: string, n: nat, d: nat)
    requires whole != "" && d < 10 && ParseNat(whole) == Some(n)
    ensures ParseUnsignedTenths(whole + ['.', Digit(d)]) == Some(10 * n + d)
  {
    hide ParseNat, Digit;
    var s := whole + ['.', Digit(d)];
    assert s[..|s| - 2] == whole && s[|s| - 2] == '.' && s[|s| - 1] == Digit(d);
  }

  lemma DigitsAndPoint(whole: string, d: nat)
    requires whole != "" && d < 10 && forall c :: c in whole ==> IsDigit(c)
    ensures var s := whole + ['.', Digit(d)]; s[0] != '-' && ',' !in s
  {
    assert whole[0] in whole;
  }

  lemma ParsePrintedUnsigned(n: nat)
    ensures var body := NatToString(n / 10) + ['.', Digit(n % 10)];
            ParseUnsignedTenths(body) == Some(n) && body != "" && body[0] != '-' && ',' !in body
  {
    hide *;
    ParsePrintedNat(n / 10);
    ParseWithTenths(NatToString(n / 10), n / 10, n % 10);
    DigitsAndPoint(NatToString(n / 10), n % 10);
  }

  lemma ParsePrintedTenths(t: int)
    ensures ParseTenths(PrintTenths(t)) == Some(t)
    ensures ',' !in PrintTenths(t)
  {
    hide NatToString, ParseUnsignedTenths, Digit;
    var body := NatToString(Abs(t) / 10) + ['.', Digit(Abs(t) % 10)];
    ParsePrintedUnsigned(Abs(t));
    if t < 0 {
      assert PrintTenths(t) == "-" + body && PrintTenths(t)[1..] == body;
    } else {
      assert PrintTenths(t) == body;
    }
  }

  // ---------- splitting ----------

  function Split(s: string, sep: char): (r: seq<string>)
    ensures |r| >= 1
  {
    if s == "" then [""]
    else
      var rest := Split(s[1..], sep);
      if s[0] == sep then [""] + rest else [[s[0]] + rest[0]] + rest[1..]
  }

  lemma {:induction false} SplitOne(a: string, sep: char)
    requires sep !in a
    ensures Split(a, sep) == [a]
  {
    if a != "" {
      assert a == [a[0]] + a[1..];
      SplitOne(a[1..], sep);
    }
  }

  lemma {:induction false} SplitFirst(a: string, sep: char, b: string)
    requires sep !in a
    ensures Split(a + [sep] + b, sep) == [a] + Split(b, sep)
  {
    var s := a + [sep] + b;
    if a == "" {
      assert s[1..] == b;
    } else {
      assert a == [a[0]] + a[1..];
      assert s[1..] == a[1..] + [sep] + b;
      SplitFirst(a[1..], sep, b);
    }
  }

  lemma {:induction false} SplitLast(a: string, sep: char, b: string)
    requires sep !in b
    ensures Split(a + [sep] + b, sep) == Split(a, sep) + [b]
  {
    var s := a + [sep] + b;
    if a == "" {
      assert s[1..] == b;
      SplitOne(b, sep);
    } else {
      assert s[1..] == a[1..] + [sep] + b;
      SplitLast(a[1..], sep, b);
    }
  }

  // ---------- heartbeats ----------

  function StateName(state: InstanceState): string {
    match state
    case Starting => "STARTING"
    case Running => "RUNNING"
    case Crashed => "CRASHED"
    case Evacuating => "EVACUATING"
    case OtherState(name) => name
  }

  function StateOf(name: string): InstanceState {
    if name == "STARTING" then Starting
    else if name == "RUNNING" then Running
    else if name == "CRASHED" then Crashed
    else if name == "EVACUATING" then Evacuating
    else OtherState(name)
  }

  // A state that stands for its name: the four known names are not hidden in OtherState.
  predicate IsCanonical(state: InstanceState) { StateOf(StateName(state)) == state }

  function ToCSV(v: NodeValue): string {
    Itoa(v.instanceIndex) + "," + StateName(v.state) + "," + PrintTenths(v.stateTimestamp) + "," + v.deaGuid
  }

  function FromCSV(encoded: string): Option<NodeValue> {
    var values := Split(encoded, ',');
    if |values| != 4 then None
    else match (Atoi(values[0]), ParseTenths(values[2]))
      case (Some(index), Some(time)) => Some(NodeValue(index, StateOf(values[1]), time, values[3]))
      case (_, _) => None
  }

  predicate IsWritable(v: NodeValue) {
    && MIN_INT <= v.instanceIndex <= MAX_INT
    && IsCanonical(v.state) && ',' !in StateName(v.state) && ',' !in v.deaGuid
  }

  /** A stored value reads back as the value that was written. */
  lemma ReadBackCSV(v: NodeValue)
    requires IsWritable(v)
    ensures FromCSV(ToCSV(v)) == Some(v)
  {
    var index, state, time := Itoa(v.instanceIndex), StateName(v.state), PrintTenths(v.stateTimestamp);
    ItoaHas(v.instanceIndex);
    AtoiOfItoa(v.instanceIndex);
    ParsePrintedTenths(v.stateTimestamp);
    hide Itoa, Atoi, PrintTenths, ParseTenths, Split;
    SplitFour(index, state, time, v.deaGuid);
  }

  lemma SplitFour(a: string, b: string, c: string, d: string)
    requires ',' !in a && ',' !in b && ',' !in c && ',' !in d
    ensures Split(a + "," + b + "," + c + "," + d, ',') == [a, b, c, d]
  {
    hide Split;
    var cd := c + [','] + d;
    var bcd := b + [','] + cd;
    assert a + "," + b + "," + c + "," + d == a + [','] + bcd;
    SplitOne(d, ',');
    SplitFirst(c, ',', d);
    SplitFirst(b, ',', cd);
    SplitFirst(a, ',', bcd);
  }

  /** The text itself: index, name of the state, seconds with one decimal, and DEA. */
  lemma TextsAreThese(v: NodeValue)
    ensures ToCSV(v) == Itoa(v.instanceIndex) + "," + StateName(v.state) + "," + PrintTenths(v.stateTimestamp) + "," +
                        v.deaGuid
    ensures StateName(Starting) == "STARTING" && StateName(Running) == "RUNNING"
    ensures StateName(Crashed) == "CRASHED" && StateName(Evacuating) == "EVACUATING"
    ensures Itoa(13) == "13" && Itoa(-2) == "-2"
    ensures PrintTenths(1234) == "123.4" && PrintTenths(-5) == "-0.5"
  {
    NumbersPrint();
  }

  lemma NumbersPrint()
    ensures Itoa(13) == "13" && Itoa(-2) == "-2"
    ensures PrintTenths(1234) == "123.4" && PrintTenths(-5) == "-0.5"
  {
    assert NatToString(1) == "1" && NatToString(13) == NatToString(1) + ['3'];
    assert NatToString(12) == NatToString(1) + ['2'] && NatToString(123) == NatToString(12) + ['3'];
  }

  lemma KeyIsThis(root: string, k: NodeKey)
    ensures NodeKeyText(root, k) ==
            root + "/apps/actual/" + k.appGuid + "," + k.appVersion + "/" + k.instanceGuid
    ensures SchemaRoot(13) == "/hm/v13"
  {
    NumbersPrint();
  }

  // ---------- keys ----------

  function SchemaRoot(version: int): string { "/hm/v" + Itoa(version) }

  function AppKeyText(appGuid: string, appVersion: string): string { appGuid + "," + appVersion }

  function NodeKeyText(root: string, k: NodeKey): string {
    root + "/apps/actual/" + AppKeyText(k.appGuid, k.appVersion) + "/" + k.instanceGuid
  }

  // The key of a stored heartbeat from its full path: the last two components.
  function ParseNodeKey(text: string): Option<NodeKey> {
    var components := Split(text, '/');
    if |components| < 2 then None
    else
      var appGuidVersion := Split(components[|components| - 2], ',');
      if |appGuidVersion| < 2 then None
      else Some(NodeKey(appGuidVersion[0], appGuidVersion[1], components[|components| - 1]))
  }

  predicate IsKeyText(s: string) { '/' !in s && ',' !in s }

  predicate IsPrintableKey(k: NodeKey) {
    IsKeyText(k.appGuid) && IsKeyText(k.appVersion) && '/' !in k.instanceGuid
  }

  /** A stored node's path gives back the key it was made from. */
  lemma ReadBackKey(root: string, k: NodeKey)
    requires IsPrintableKey(k)
    ensures ParseNodeKey(NodeKeyText(root, k)) == Some(k)
  {
    var app := AppKeyText(k.appGuid, k.appVersion);
    var dir := root + "/apps/actual";
    assert NodeKeyText(root, k) == (dir + ['/'] + app) + ['/'] + k.instanceGuid;
    SplitLast(dir + ['/'] + app, '/', k.instanceGuid);
    SplitLast(dir, '/', app);
    assert app == k.appGuid + [','] + k.appVersion;
    SplitFirst(k.appGuid, ',', k.appVersion);
    SplitOne(k.appVersion, ',');
  }

  /** Distinct instances never share a path. */
  lemma NodeKeysAreInjective(root: string, k: NodeKey, k': NodeKey)
    requires IsPrintableKey(k) && IsPrintableKey(k')
    ensures NodeKeyText(root, k) == NodeKeyText(root, k') ==> k == k'
  {
    ReadBackKey(root, k);
    ReadBackKey(root, k');
  }

  /** Building the node of a heartbeat and reading it back gives the same heartbeat. */
  lemma NodeRoundTrip(root: string, h: InstanceHeartbeat)
    requires IsPrintableKey(KeyOf(h)) && IsWritable(ValueOf(h))
    ensures var k, v := ParseNodeKey(NodeKeyText(root, KeyOf(h))), FromCSV(ToCSV(ValueOf(h)));
            k.Some? && v.Some? && Read(k.value, v.value) == h
  {
    ReadBackKey(root, KeyOf(h));
    ReadBackCSV(ValueOf(h));
  }

  // ---------- keys of pending starts ----------

  function StartKeyText(k: StartKey): string { k.appGuid + "-" + k.appVersion + "-" + Itoa(k.index) }

  // A negative index is printed as if its sign belonged to the version.
  function Unsigned(k: StartKey): StartKey {
    if k.index < 0 then StartKey(k.appGuid, k.appVersion + "-", -k.index) else k
  }

  // The second guid goes on where the first one ends, with what the first version begins with.
  predicate Overlaps(guid: string, version: string, guid': string, version': string) {
    guid + "-" <= guid' && version == guid'[|guid| + 1..] + "-" + version'
  }

  predicate Confusable(k: StartKey, k': StartKey) {
    && k.index == k'.index
    && (|| (k.appGuid == k'.appGuid && k.appVersion == k'.appVersion)
        || Overlaps(k.appGuid, k.appVersion, k'.appGuid, k'.appVersion)
        || Overlaps(k'.appGuid, k'.appVersion, k.appGuid, k.appVersion))
  }

  // A text is split at its last dash in one way only.
  lemma LastDash(a: string, b: string, a': string, b': string)
    requires '-' !in b && '-' !in b' && a + "-" + b == a' + "-" + b'
    ensures a == a' && b == b'
  {
    var t := a + "-" + b;
    assert t == a' + "-" + b';
    assert t[|a|] == '-' && t[|a'|] == '-';
    assert t[..|a|] == a && t[|a| + 1..] == b;
    assert t[..|a'|] == a' && t[|a'| + 1..] == b';
  }

  lemma TwoPartTexts(g: string, v: string, g': string, v': string)
    ensures g + "-" + v == g' + "-" + v' <==> (g == g' && v == v') || Overlaps(g, v, g', v') || Overlaps(g', v', g, v)
  {
    if g + "-" + v == g' + "-" + v' {
      if |g| < |g'| {
        ShorterOverlaps(g, v, g', v');
      } else if |g'| < |g| {
        ShorterOverlaps(g', v', g, v);
      } else {
        var t := g + "-" + v;
        assert t[..|g|] == g && t[|g| + 1..] == v;
        assert t == g' + "-" + v' && t[..|g|] == g' && t[|g| + 1..] == v';
      }
    }
    if Overlaps(g, v, g', v') {
      assert g' == g + "-" + g'[|g| + 1..];
    }
    if Overlaps(g', v', g, v) {
      assert g == g' + "-" + g[|g'| + 1..];
    }
  }

  lemma ShorterOverlaps(g: string, v: string, g': string, v': string)
    requires g + "-" + v == g' + "-" + v' && |g| < |g'|
    ensures Overlaps(g, v, g', v')
  {
    var t := g + "-" + v;
    assert t[..|g| + 1] == g + "-";
    assert t == g' + "-" + v' && t[..|g'|] == g';
    assert t[|g| + 1..] == v;
    assert t[|g| + 1..] == g'[|g| + 1..] + "-" + v';
  }

  lemma UnsignedText(k: StartKey)
    ensures Unsigned(k).index >= 0
    ensures StartKeyText(k) == (Unsigned(k).appGuid + "-" + Unsigned(k).appVersion) + "-" +
              NatToString(Unsigned(k).index)
  {
  }

  /** Two pending starts share a key exactly if they are for the same index of the same app, or of two apps
      the guid of one of which continues the other's guid with the beginning of the other's version. */
  lemma StartKeysCollideIff(k: StartKey, k': StartKey)
    ensures StartKeyText(k) == StartKeyText(k') <==> Confusable(Unsigned(k), Unsigned(k'))
  {
    var n, n' := Unsigned(k), Unsigned(k');
    UnsignedText(k);
    UnsignedText(k');
    hide Unsigned, StartKeyText, Overlaps, NatToString;
    var app, app' := n.appGuid + "-" + n.appVersion, n'.appGuid + "-" + n'.appVersion;
    var digits, digits' := NatToString(n.index), NatToString(n'.index);
    TwoPartTexts(n.appGuid, n.appVersion, n'.appGuid, n'.appVersion);
    ParsePrintedNat(n.index);
    ParsePrintedNat(n'.index);
    if app + "-" + digits == app' + "-" + digits' {
      LastDash(app, digits, app', digits');
    }
  }

  /** So those of different apps or indices never do as long as guids and versions have a fixed length. */
  lemma StartKeysAreInjective(k: StartKey, k': StartKey)
    requires |k.appGuid| == |k'.appGuid| && |k.appVersion| == |k'.appVersion|
    ensures StartKeyText(k) == StartKeyText(k') ==> k == k'
  {
    hide StartKeyText;
    StartKeysCollideIff(k, k');
    if k.index < 0 && k'.index < 0 {
      assert (k.appVersion + "-")[..|k.appVersion|] == k.appVersion;
      assert (k'.appVersion + "-")[..|k.appVersion|] == k'.appVersion;
    }
  }

  lemma StartKeysCanCollide()
    ensures StartKeyText(StartKey("a-b", "c", 0)) == StartKeyText(StartKey("a", "b-c", 0))
  {
    assert "a-b" + "-" + "c" + "-" == "a" + "-" + "b-c" + "-";
  }
}
