/**
 * clientKeyOf (apps/console/server/stand-server.ts:2045-2053): the key under which a client address
 * is counted. An IPv6 address counts by its first four groups, in whatever spelling it comes.
 */
module ClientKey {
  import opened Common
  import opened Text

  /** Removes one opening bracket at the start and one closing bracket at the end. */
  function StripBrackets(s: string): (r: string) {
    var t := if s != "" && s[0] == '[' then s[1..] else s;
    if t != "" && t[|t| - 1] == ']' then t[..|t| - 1] else t
  }

  /** Index of the first `::`, or the length when there is none. */
  function FirstDouble(s: string): (i: nat)
    ensures i <= |s|
    ensures i < |s| ==> i + 1 < |s| && s[i] == ':' && s[i + 1] == ':'
  {
    if |s| < 2 then |s| else if s[0] == ':' && s[1] == ':' then 0 else 1 + FirstDouble(s[1..])
  }

  predicate HasPrefix(s: string, p: string) { |p| <= |s| && s[..|p|] == p }

  /** One or more digits. */
  predicate Digits(s: string) { s != "" && AllDigits(s) }

  const MAPPED: string := "::ffff:"

  /** An IPv4 address inside IPv6: `::ffff:` and four runs of digits. */
  predicate IsMapped(s: string) {
    && HasPrefix(s, MAPPED)
    && var parts := Split(s[|MAPPED|..], '.');
       |parts| == 4 && forall p :: p in parts ==> Digits(p)
  }

  /** Leading zeros go, but never the last character. */
  function StripZeros(g: string): (r: string) {
    if |g| >= 2 && g[0] == '0' then StripZeros(g[1..]) else g
  }

  function Zeros(n: nat): (r: seq<string>)
    ensures |r| == n
    ensures forall i :: 0 <= i < n ==> r[i] == "0"
  {
    seq(n, i => "0")
  }

  function Groups(a: string): (r: seq<string>) {
    var i := FirstDouble(a);
    var head := a[..i];
    var after := if i < |a| then a[i + 2..] else "";
    var tail := after[..FirstDouble(after)];
    var left := if head == "" then [] else Split(head, ':');
    var right := if tail == "" then [] else Split(tail, ':');
    if i < |a| then left + Zeros(Max(0, 8 - |left| - |right|)) + right else left
  }

  function MapStrip(gs: seq<string>): (r: seq<string>)
    ensures |r| == |gs|
    ensures forall i :: 0 <= i < |gs| ==> r[i] == StripZeros(gs[i])
  {
    seq(|gs|, i requires 0 <= i < |gs| => StripZeros(gs[i]))
  }

  /** The key of an address whose brackets are gone and whose letters are small. */
  function KeyOfText(a: string): (key: string) {
    if ':' !in a || IsMapped(a) then (if HasPrefix(a, MAPPED) then a[|MAPPED|..] else a)
    else
      var groups := Groups(a);
      Join(MapStrip(groups[..Min(4, |groups|)]), ':') + "::/64"
  }

  function ClientKeyOf(address: string): (key: string) {
    KeyOfText(Lower(StripBrackets(address)))
  }

  // ---------------------------------------------------------------- spellings of an address

  predicate IsHex(c: char) { IsDigit(c) || 'a' <= c <= 'f' || 'A' <= c <= 'F' }

  function HexDigit(c: char): (v: nat)
    requires IsHex(c)
    ensures v < 16
  {
    if IsDigit(c) then c as int - '0' as int
    else if 'a' <= c <= 'f' then c as int - 'a' as int + 10
    else c as int - 'A' as int + 10
  }

  predicate AllHex(s: string) { forall c :: c in s ==> IsHex(c) }

  function HexValue(s: string): (v: nat)
    requires AllHex(s)
  {
    if s == "" then 0 else 16 * HexValue(s[..|s| - 1]) + HexDigit(s[|s| - 1])
  }

  /** One to four hexadecimal digits in either case (RFC 4291, section 2.2). */
  predicate IsGroup(s: string) { 1 <= |s| <= 4 && AllHex(s) }

  predicate AllGroups(parts: seq<string>) { forall i :: 0 <= i < |parts| ==> IsGroup(parts[i]) }

  function Values(parts: seq<string>): (r: seq<nat>)
    requires AllGroups(parts)
    ensures |r| == |parts|
    ensures forall i :: 0 <= i < |parts| ==> r[i] == HexValue(parts[i])
  {
    seq(|parts|, i requires 0 <= i < |parts| => HexValue(parts[i]))
  }

  /** The full form: eight groups. */
  predicate FullForm(text: string, parts: seq<string>, address: seq<nat>) {
    |parts| == 8 && AllGroups(parts) && text == Join(parts, ':') && address == Values(parts)
  }

  /** The compressed form: one `::` for one or more groups of zeros. */
  predicate CompressedForm(text: string, left: seq<string>, right: seq<string>, address: seq<nat>) {
    && |left| + |right| <= 7 && AllGroups(left) && AllGroups(right)
    && text == Join(left, ':') + "::" + Join(right, ':')
    && address == Values(left) + seq(8 - |left| - |right|, i => 0) + Values(right)
  }

  ghost predicate Spells(text: string, address: seq<nat>) {
    || (exists parts :: FullForm(text, parts, address))
    || (exists left, right :: CompressedForm(text, left, right, address))
  }

  function HexChar(v: nat): (c: char)
    requires v < 16
    ensures IsHex(c) && HexDigit(c) == v && LowerChar(c) == c
  {
    if v < 10 then (v + '0' as int) as char else (v - 10 + 'a' as int) as char
  }

  /** The shortest lower-case spelling of a group. */
  function HexText(v: nat): (s: string)
    ensures s != "" && AllHex(s)
  {
    if v < 16 then [HexChar(v)] else HexText(v / 16) + [HexChar(v % 16)]
  }

  function HexTexts(vs: seq<nat>): (r: seq<string>)
    ensures |r| == |vs|
    ensures forall i :: 0 <= i < |vs| ==> r[i] == HexText(vs[i])
  {
    seq(|vs|, i requires 0 <= i < |vs| => HexText(vs[i]))
  }

  /** The key of an address: its first four groups, each in its shortest spelling. */
  function NetworkKey(address: seq<nat>): (key: string)
    requires |address| == 8
  {
    Join(HexTexts(address[..4]), ':') + "::/64"
  }

  lemma {:induction false} HexValueText(v: nat)
    ensures HexValue(HexText(v)) == v
  {
    if v < 16 {
      assert [HexChar(v)][..0] == "";
    } else {
      HexValueText(v / 16);
      var s := HexText(v / 16) + [HexChar(v % 16)];
      assert s[..|s| - 1] == HexText(v / 16);
    }
  }

  predicate IsLower(s: string) { forall c :: c in s ==> LowerChar(c) == c }

  predicate AllLower(parts: seq<string>) { forall i :: 0 <= i < |parts| ==> IsLower(parts[i]) }

  lemma {:induction false} LowerDigit(c: char)
    requires IsHex(c) && LowerChar(c) == c
    ensures HexChar(HexDigit(c)) == c
  {
  }

  /** A lower-case group without superfluous zeros is the shortest spelling of its value. */
  lemma {:induction false} ShortestText(s: string)
    requires s != "" && AllHex(s) && IsLower(s) && (|s| >= 2 ==> s[0] != '0')
    ensures HexText(HexValue(s)) == s
    ensures |s| >= 2 ==> HexValue(s) >= 16
  {
    var n := |s| - 1;
    assert s[n] in s;
    LowerDigit(s[n]);
    assert s == s[..n] + [s[n]];
    if n == 0 {
      assert HexValue(s[..0]) == 0;
    } else {
      assert s[0] in s && s[..n][0] == s[0];
      ShortestText(s[..n]);
      if n == 1 {
        assert s[..1] == [s[0]] && s[..1][..0] == "";
        assert HexValue(s[..1]) == HexDigit(s[0]) > 0;
      }
      assert HexValue(s) / 16 == HexValue(s[..n]) && HexValue(s) % 16 == HexDigit(s[n]);
    }
  }

  lemma {:induction false} HexValueDropZero(s: string)
    requires s != "" && s[0] == '0' && AllHex(s)
    ensures HexValue(s[1..]) == HexValue(s)
  {
    var n := |s| - 1;
    if n == 0 {
      assert s[..0] == "";
    } else {
      assert s[..n][0] == '0';
      HexValueDropZero(s[..n]);
      assert s[1..][..n - 1] == s[..n][1..];
    }
  }

  lemma {:induction false} StripZerosShortest(s: string)
    requires s != "" && AllHex(s) && IsLower(s)
    ensures StripZeros(s) == HexText(HexValue(s))
  {
    if |s| >= 2 && s[0] == '0' {
      HexValueDropZero(s);
      StripZerosShortest(s[1..]);
    } else {
      ShortestText(s);
    }
  }

  lemma {:induction false} LowerValue(s: string)
    requires AllHex(s)
    ensures AllHex(Lower(s)) && IsLower(Lower(s)) && HexValue(Lower(s)) == HexValue(s)
  {
    forall c | c in Lower(s) ensures IsHex(c) && LowerChar(c) == c {
      var i :| 0 <= i < |s| && Lower(s)[i] == c;
      assert s[i] in s;
    }
    if s != "" {
      var n := |s| - 1;
      LowerValue(s[..n]);
      assert Lower(s)[..n] == Lower(s[..n]);
      assert s[n] in s;
    }
  }

  function LowerAll(parts: seq<string>): (r: seq<string>)
    ensures |r| == |parts|
    ensures forall i :: 0 <= i < |parts| ==> r[i] == Lower(parts[i])
  {
    seq(|parts|, i requires 0 <= i < |parts| => Lower(parts[i]))
  }

  lemma {:induction false} LowerJoin(parts: seq<string>)
    ensures Lower(Join(parts, ':')) == Join(LowerAll(parts), ':')
  {
    if |parts| >= 2 {
      LowerJoin(parts[1..]);
      assert LowerAll(parts)[1..] == LowerAll(parts[1..]);
    }
  }

  lemma {:induction false} LowerGroups(parts: seq<string>)
    requires AllGroups(parts)
    ensures AllGroups(LowerAll(parts)) && Values(LowerAll(parts)) == Values(parts)
    ensures AllLower(LowerAll(parts))
  {
    forall i | 0 <= i < |parts|
      ensures IsGroup(LowerAll(parts)[i]) && HexValue(LowerAll(parts)[i]) == HexValue(parts[i])
                && IsLower(LowerAll(parts)[i])
    {
      assert parts[i] in parts;
      LowerValue(parts[i]);
    }
  }

  /** Joined groups hold hexadecimal digits and single colons, and begin and end with a digit. */
  lemma {:induction false} JoinedGroups(parts: seq<string>)
    requires AllGroups(parts) && parts != []
    ensures var t := Join(parts, ':');
            && t != "" && IsHex(t[0]) && IsHex(t[|t| - 1])
            && (forall c :: c in t ==> IsHex(c) || c == ':')
            && (|parts| >= 2 ==> ':' in t)
  {
    assert IsGroup(parts[0]);
    assert parts[0][0] in parts[0] && parts[0][|parts[0]| - 1] in parts[0];
    if |parts| >= 2 {
      JoinedGroups(parts[1..]);
      var rest := Join(parts[1..], ':');
      var t := parts[0] + ":" + rest;
      assert t[|parts[0]|] == ':' && t[|t| - 1] == rest[|rest| - 1];
    }
  }

  /** The first `::` after a text without colons at its end comes where that text ends. */
  lemma {:induction false} FirstDoubleAfter(p: string, rest: string)
    requires FirstDouble(p) == |p| && (p != "" ==> p[|p| - 1] != ':')
    ensures FirstDouble(p + rest) == |p| + FirstDouble(rest)
  {
    if p == "" {
      assert p + rest == rest;
    } else if |p| == 1 {
      if rest == "" {
        assert p + rest == p;
      } else {
        assert (p + rest)[1..] == rest;
      }
    } else {
      assert (p + rest)[1..] == p[1..] + rest;
      FirstDoubleAfter(p[1..], rest);
    }
  }

  lemma {:induction false} NoColonNoDouble(p: string)
    requires ':' !in p
    ensures FirstDouble(p) == |p|
  {
    if |p| >= 2 {
      NoColonNoDouble(p[1..]);
    }
  }

  lemma {:induction false} NoDoubleInJoin(parts: seq<string>)
    requires AllGroups(parts)
    ensures FirstDouble(Join(parts, ':')) == |Join(parts, ':')|
  {
    if parts != [] {
      assert IsGroup(parts[0]);
      NoColonNoDouble(parts[0]);
      if |parts| >= 2 {
        NoDoubleInJoin(parts[1..]);
        var rest := Join(parts[1..], ':');
        JoinedGroups(parts[1..]);
        assert (":" + rest)[1..] == rest;
        assert FirstDouble(":" + rest) == 1 + FirstDouble(rest);
        assert parts[0][|parts[0]| - 1] in parts[0];
        FirstDoubleAfter(parts[0], ":" + rest);
        assert parts[0] + ":" + rest == parts[0] + (":" + rest);
      }
    }
  }

  lemma {:induction false} SplitGroups(parts: seq<string>)
    requires AllGroups(parts)
    ensures var t := Join(parts, ':'); (if t == "" then [] else Split(t, ':')) == parts
  {
    if parts != [] {
      JoinedGroups(parts);
      forall p | p in parts ensures ':' !in p {
        assert IsGroup(p);
      }
      SplitJoin(parts, ':');
    }
  }

  lemma {:induction false} FullGroups(parts: seq<string>)
    requires AllGroups(parts)
    ensures Groups(Join(parts, ':')) == parts
  {
    NoDoubleInJoin(parts);
    SplitGroups(parts);
    var t := Join(parts, ':');
    assert t[..|t|] == t;
  }

  lemma {:induction false} DoubleOfCompressed(left: seq<string>, right: seq<string>)
    requires AllGroups(left) && AllGroups(right)
    ensures var l, r := Join(left, ':'), Join(right, ':');
            && FirstDouble(l + "::" + r) == |l| && FirstDouble(r) == |r|
  {
    var l, r := Join(left, ':'), Join(right, ':');
    NoDoubleInJoin(left);
    NoDoubleInJoin(right);
    if left != [] {
      JoinedGroups(left);
    }
    assert l + "::" + r == l + ("::" + r);
    FirstDoubleAfter(l, "::" + r);
  }

  lemma {:induction false} CompressedGroups(left: seq<string>, right: seq<string>)
    requires AllGroups(left) && AllGroups(right) && |left| + |right| <= 7
    ensures Groups(Join(left, ':') + "::" + Join(right, ':')) == left + Zeros(8 - |left| - |right|) + right
  {
    var l, r := Join(left, ':'), Join(right, ':');
    var a := l + "::" + r;
    DoubleOfCompressed(left, right);
    assert a[..|l|] == l && a[|l| + 2..] == r && r[..|r|] == r;
    SplitGroups(left);
    SplitGroups(right);
  }

  lemma {:induction false} SplitCovers(s: string, c: char)
    requires c !in s
    ensures Split(s, c) == [s]
  {
    IndexAfter(s, c, "");
    assert s + "" == s;
  }

  /** A text of hexadecimal digits and colons is no embedded IPv4 address. */
  lemma {:induction false} NotMapped(a: string)
    requires '.' !in a
    ensures !IsMapped(a)
  {
    if HasPrefix(a, MAPPED) {
      SplitCovers(a[|MAPPED|..], '.');
    }
  }

  lemma {:induction false} KeyOfGroups(a: string, groups: seq<string>, address: seq<nat>)
    requires ':' in a && '.' !in a && Groups(a) == groups
    requires |groups| == 8 && AllGroups(groups) && AllLower(groups) && address == Values(groups)
    ensures KeyOfText(a) == NetworkKey(address)
  {
    NotMapped(a);
    forall i | 0 <= i < 4 ensures MapStrip(groups[..4])[i] == HexTexts(address[..4])[i] {
      assert groups[i] in groups;
      StripZerosShortest(groups[i]);
    }
    assert MapStrip(groups[..4]) == HexTexts(address[..4]);
  }

  lemma {:induction false} BracketsDoNotMatter(text: string)
    requires text != "" && text[0] != '[' && text[|text| - 1] != ']'
    ensures StripBrackets(text) == text && StripBrackets("[" + text + "]") == text
  {
    var t := "[" + text + "]";
    assert t[1..] == text + "]" && (text + "]")[..|text|] == text;
  }

  /**
   * Every hexadecimal spelling of an IPv6 address (RFC 4291, section 2.2), with or without brackets,
   * gets the key of its first four groups.
   */
  lemma {:induction false} SpellingHasOneKey(text: string, address: seq<nat>)
    requires Spells(text, address)
    ensures |address| == 8
    ensures ClientKeyOf(text) == NetworkKey(address) && ClientKeyOf("[" + text + "]") == NetworkKey(address)
  {
    if parts :| FullForm(text, parts, address) {
      FullKey(text, parts, address);
    } else {
      var left, right :| CompressedForm(text, left, right, address);
      CompressedKey(text, left, right, address);
    }
    BracketsDoNotMatter(text);
  }

  lemma {:induction false} FullKey(text: string, parts: seq<string>, address: seq<nat>)
    requires FullForm(text, parts, address)
    ensures text != "" && text[0] != '[' && text[|text| - 1] != ']'
    ensures KeyOfText(Lower(text)) == NetworkKey(address)
  {
    FullText(text, parts, address);
    LowerGroups(parts);
    FullGroups(LowerAll(parts));
    KeyOfGroups(Lower(text), LowerAll(parts), address);
  }

  lemma {:induction false} FullText(text: string, parts: seq<string>, address: seq<nat>)
    requires FullForm(text, parts, address)
    ensures text != "" && text[0] != '[' && text[|text| - 1] != ']'
    ensures Lower(text) == Join(LowerAll(parts), ':')
    ensures ':' in Lower(text) && '.' !in Lower(text)
  {
    JoinedGroups(parts);
    LowerJoin(parts);
    LowerGroups(parts);
    JoinedGroups(LowerAll(parts));
  }

  lemma {:induction false} CompressedText(text: string, left: seq<string>, right: seq<string>, address: seq<nat>)
    requires CompressedForm(text, left, right, address)
    ensures text != "" && text[0] != '[' && text[|text| - 1] != ']'
    ensures Lower(text) == Join(LowerAll(left), ':') + "::" + Join(LowerAll(right), ':')
    ensures ':' in Lower(text) && '.' !in Lower(text)
  {
    var l, r := Join(LowerAll(left), ':'), Join(LowerAll(right), ':');
    LowerJoin(left);
    LowerJoin(right);
    LowerGroups(left);
    LowerGroups(right);
    if left != [] {
      JoinedGroups(left);
      JoinedGroups(LowerAll(left));
    }
    if right != [] {
      JoinedGroups(right);
      JoinedGroups(LowerAll(right));
    }
    assert Lower(text) == l + "::" + r;
    assert Lower(text)[|l|] == ':';
    forall c | c in l + "::" + r ensures c != '.' {
      assert c in l || c == ':' || c in r;
    }
  }

  lemma {:induction false} CompressedKey(text: string, left: seq<string>, right: seq<string>, address: seq<nat>)
    requires CompressedForm(text, left, right, address)
    ensures text != "" && text[0] != '[' && text[|text| - 1] != ']'
    ensures KeyOfText(Lower(text)) == NetworkKey(address)
  {
    CompressedText(text, left, right, address);
    LowerGroups(left);
    LowerGroups(right);
    CompressedLowKey(Lower(text), LowerAll(left), LowerAll(right), address);
  }

  lemma {:induction false} CompressedLowKey(a: string, left: seq<string>, right: seq<string>, address: seq<nat>)
    requires CompressedForm(a, left, right, address) && AllLower(left) && AllLower(right)
    requires ':' in a && '.' !in a
    ensures KeyOfText(a) == NetworkKey(address)
  {
    CompressedGroups(left, right);
    ZerosInside(left, right);
    var groups := left + Zeros(8 - |left| - |right|) + right;
    assert Groups(a) == groups && address == Values(groups);
    KeyOfGroups(a, groups, address);
  }

  lemma {:induction false} ZerosInside(left: seq<string>, right: seq<string>)
    requires AllGroups(left) && AllGroups(right) && |left| + |right| <= 7
    requires AllLower(left) && AllLower(right)
    ensures var groups := left + Zeros(8 - |left| - |right|) + right;
            && AllGroups(groups) && AllLower(groups)
            && Values(groups) == Values(left) + seq(8 - |left| - |right|, i => 0) + Values(right)
  {
    var zeros := Zeros(8 - |left| - |right|);
    var groups := left + zeros + right;
    assert "0"[..0] == "" && HexValue("0") == 0;
    forall i | 0 <= i < 8 ensures IsGroup(groups[i]) && IsLower(groups[i]) {
      assert groups[i]
          == if i < |left| then left[i] else if i < |left| + |zeros| then "0" else right[i - |left| - |zeros|];
    }
  }

  /** Different networks have different keys. */
  lemma {:induction false} NetworkKeyInjective(a: seq<nat>, b: seq<nat>)
    requires |a| == |b| == 8 && NetworkKey(a) == NetworkKey(b)
    ensures a[..4] == b[..4]
  {
    var ta, tb := HexTexts(a[..4]), HexTexts(b[..4]);
    var ja, jb := Join(ta, ':'), Join(tb, ':');
    assert ja == NetworkKey(a)[..|NetworkKey(a)| - 5] && jb == NetworkKey(b)[..|NetworkKey(b)| - 5];
    forall p | p in ta || p in tb ensures ':' !in p {
    }
    SplitJoin(ta, ':');
    SplitJoin(tb, ':');
    forall i | 0 <= i < 4 ensures a[i] == b[i] {
      assert ta[i] == tb[i];
      HexValueText(a[i]);
      HexValueText(b[i]);
    }
  }

  /** Two IPv6 addresses, however they are spelled, share a key exactly when their first four groups are equal. */
  lemma {:induction false} SameKeySameNetwork(text1: string, address1: seq<nat>, text2: string, address2: seq<nat>)
    requires Spells(text1, address1) && Spells(text2, address2)
    ensures |address1| == |address2| == 8
    ensures ClientKeyOf(text1) == ClientKeyOf(text2) <==> address1[..4] == address2[..4]
  {
    SpellingHasOneKey(text1, address1);
    SpellingHasOneKey(text2, address2);
    if ClientKeyOf(text1) == ClientKeyOf(text2) {
      NetworkKeyInjective(address1, address2);
    }
  }

  // ---------------------------------------------------------------- addresses that are no IPv6

  /** Four runs of digits (RFC 791 writes them so). */
  ghost predicate IsIPv4(text: string) {
    exists parts: seq<string> :: |parts| == 4 && (forall p :: p in parts ==> Digits(p)) && text == Join(parts, '.')
  }

  lemma {:induction false} DottedText(parts: seq<string>)
    requires parts != [] && forall p :: p in parts ==> Digits(p)
    ensures var t := Join(parts, '.');
            t != "" && IsDigit(t[0]) && IsDigit(t[|t| - 1]) && forall c :: c in t ==> IsDigit(c) || c == '.'
  {
    assert parts[0] in parts;
    assert parts[0][0] in parts[0] && parts[0][|parts[0]| - 1] in parts[0];
    if |parts| >= 2 {
      assert forall p :: p in parts[1..] ==> p in parts;
      DottedText(parts[1..]);
      var rest := Join(parts[1..], '.');
      var t := parts[0] + "." + rest;
      assert t[|t| - 1] == rest[|rest| - 1];
    }
  }

  lemma {:induction false} LowerStays(s: string)
    requires forall c :: c in s ==> LowerChar(c) == c
    ensures Lower(s) == s
  {
    assert forall i :: 0 <= i < |s| ==> s[i] in s;
  }

  lemma {:induction false} PrefixHoldsColon(a: string)
    ensures HasPrefix(a, MAPPED) ==> ':' in a
  {
    if HasPrefix(a, MAPPED) {
      assert a[..|MAPPED|][0] == ':' && a[0] in a;
    }
  }

  /** An address without a colon is its own key, in small letters and without brackets. */
  lemma {:induction false} PlainIsItsOwnKey(text: string)
    requires ':' !in text
    ensures ClientKeyOf(text) == Lower(StripBrackets(text))
  {
    var a := Lower(StripBrackets(text));
    forall c | c in a ensures c != ':' {
      var i :| 0 <= i < |a| && a[i] == c;
      assert StripBrackets(text)[i] in text;
    }
    PrefixHoldsColon(a);
  }

  lemma {:induction false} MappedKey(parts: seq<string>)
    requires |parts| == 4 && forall p :: p in parts ==> Digits(p)
    ensures KeyOfText(MAPPED + Join(parts, '.')) == Join(parts, '.')
  {
    var text := Join(parts, '.');
    forall p | p in parts ensures '.' !in p {
    }
    SplitJoin(parts, '.');
    assert (MAPPED + text)[|MAPPED|..] == text && HasPrefix(MAPPED + text, MAPPED);
  }

  lemma {:induction false} LowerConcat(a: string, b: string)
    ensures Lower(a + b) == Lower(a) + Lower(b)
  {
  }

  /** A mapped address begins with a colon and ends with a digit. */
  lemma {:induction false} MappedEnds(prefix: string, text: string)
    requires Lower(prefix) == MAPPED && text != "" && IsDigit(text[|text| - 1])
    ensures var a := prefix + text; a != "" && a[0] != '[' && a[|a| - 1] != ']'
  {
    assert Lower(prefix)[0] == LowerChar(prefix[0]) == ':';
    assert (prefix + text)[|prefix + text| - 1] == text[|text| - 1];
  }

  /**
   * An IPv4 address counts as a whole, and under the same key when it comes inside an IPv6 address, in
   * whatever case and with or without brackets.
   */
  lemma {:induction false} MappedSharesTheKey(text: string, prefix: string)
    requires IsIPv4(text) && Lower(prefix) == MAPPED
    ensures ClientKeyOf(text) == ClientKeyOf(prefix + text) == ClientKeyOf("[" + (prefix + text) + "]") == text
  {
    var parts: seq<string> :| |parts| == 4 && (forall p :: p in parts ==> Digits(p)) && text == Join(parts, '.');
    DottedText(parts);
    LowerStays(text);
    PlainIsItsOwnKey(text);
    BracketsDoNotMatter(text);
    MappedEnds(prefix, text);
    BracketsDoNotMatter(prefix + text);
    LowerConcat(prefix, text);
    MappedKey(parts);
  }
}
