/** Redaction of JSON documents before they are logged. */
module Redact {
  import opened Wrappers
  import opened Text
  import Utf8

  /** A JSON value; a number is the text it prints as. */
  datatype Json =
    | Null
    | Bool(value: bool)
    | Number(text: string)
    | String(content: string)
    | Array(items: seq<Json>)
    | Object(fields: map<string, Json>)

  const SECRET_KEY_MARKERS := ["imei", "cookie", "zpw_enk", "enk", "secret", "secret_key", "secretkey", "token", "zpsid",
                               "zpw_sek", "session", "password"]

  predicate ContainsAny(s: string, markers: seq<string>) {
    exists i :: 0 <= i < |markers| && Contains(s, markers[i])
  }

  /** `is_secret_key` */
  predicate IsSecretKey(key: string) { ContainsAny(LowerAll(key), SECRET_KEY_MARKERS) }

  /** Decimal digits of a number. */
  function Decimal(n: nat): (s: string)
    ensures s != ""
  {
    if n < 10 then [('0' as int + n) as char] else Decimal(n / 10) + [('0' as int + n % 10) as char]
  }

  /** `mask` */
  function Mask(len: nat): string { "***redacted(" + Decimal(len) + ")***" }

  /** `value_text_len` */
  function ValueTextLen(v: Json): nat {
    match v
    case String(s) => |Utf8.Encode(s)|
    case Array(items) => |items|
    case Object(fields) => |fields|
    case Null => 4
    case Bool(b) => if b then 4 else 5
    case Number(text) => |Utf8.Encode(text)|
  }

  /** What is logged for a document. */
  function Redacted(v: Json): Json {
    match v
    case Object(fields) => Object(map k | k in fields :: if IsSecretKey(k) then String(Mask(ValueTextLen(fields[k]))) else Redacted(fields[k]))
    case Array(items) => Array(seq(|items|, i requires 0 <= i < |items| => Redacted(items[i])))
    case _ => v
  }

  /** `redact_json` */
  method RedactJson(v: Json) returns (r: Json)
    ensures r == Redacted(v)
    decreases v
  {
    match v {
      case Object(fields) =>
        var out: map<string, Json> := map[];
        var rest := fields.Keys;
        while rest != {}
          invariant rest <= fields.Keys && out.Keys == fields.Keys - rest
          invariant forall k :: k in out ==> out[k] == Redacted(v).fields[k]
        {
          var k :| k in rest;
          if IsSecretKey(k) {
            out := out[k := String(Mask(ValueTextLen(fields[k])))];
          } else {
            var inner := RedactJson(fields[k]);
            out := out[k := inner];
          }
          rest := rest - {k};
        }
        assert out == Redacted(v).fields;
        return Object(out);
      case Array(items) =>
        var out: seq<Json> := [];
        for i := 0 to |items|
          invariant |out| == i
          invariant forall j :: 0 <= j < i ==> out[j] == Redacted(items[j])
        {
          var inner := RedactJson(items[i]);
          out := out + [inner];
        }
        return Array(out);
      case _ => return v;
    }
  }

  // ---- Secret keys

  lemma {:induction false} ContainsPart(s: string, a: string, b: string)
    requires Contains(s, a + b)
    ensures Contains(s, a) && Contains(s, b)
  {
    if StartsWith(s, a + b) {
      assert s[..|a|] == (a + b)[..|a|] == a;
      assert s[|a|..][..|b|] == (a + b)[|a|..] == b;
      ContainsAt(s, b, |a|);
    } else {
      ContainsPart(s[1..], a, b);
    }
  }

  lemma {:induction false} ContainsAt(s: string, part: string, i: nat)
    requires i <= |s| && StartsWith(s[i..], part)
    ensures Contains(s, part)
  {
    if i > 0 {
      assert s[i..] == s[1..][i - 1..];
      ContainsAt(s[1..], part, i - 1);
    } else {
      assert s[0..] == s;
    }
  }

  const SHORTEST_MARKERS := ["imei", "cookie", "enk", "secret", "token", "zpsid", "zpw_sek", "session", "password"]

  /** Upper and lower case do not matter, and three of the markers are implied by shorter ones. */
  lemma SecretKeyIff(key: string)
    ensures IsSecretKey(key) <==> ContainsAny(LowerAll(key), SHORTEST_MARKERS)
    ensures IsSecretKey(LowerAll(key)) <==> IsSecretKey(key)
  {
    var k := LowerAll(key);
    if IsSecretKey(key) {
      var i :| 0 <= i < |SECRET_KEY_MARKERS| && Contains(k, SECRET_KEY_MARKERS[i]);
      ShorterMarker(k, i);
    }
    if ContainsAny(k, SHORTEST_MARKERS) {
      var i :| 0 <= i < |SHORTEST_MARKERS| && Contains(k, SHORTEST_MARKERS[i]);
      assert SHORTEST_MARKERS[i] == SECRET_KEY_MARKERS[[0, 1, 3, 4, 7, 8, 9, 10, 11][i]];
    }
    LowerTwice(key);
  }

  lemma ShorterMarker(k: string, i: nat)
    requires i < |SECRET_KEY_MARKERS| && Contains(k, SECRET_KEY_MARKERS[i])
    ensures ContainsAny(k, SHORTEST_MARKERS)
  {
    var j := [0, 1, 2, 2, 3, 3, 3, 4, 5, 6, 7, 8][i];
    if i == 2 {
      assert SECRET_KEY_MARKERS[i] == "zpw_" + "enk";
      ContainsPart(k, "zpw_", "enk");
    } else if i == 5 {
      assert SECRET_KEY_MARKERS[i] == "secret" + "_key";
      ContainsPart(k, "secret", "_key");
    } else if i == 6 {
      assert SECRET_KEY_MARKERS[i] == "secret" + "key";
      ContainsPart(k, "secret", "key");
    } else {
      assert SECRET_KEY_MARKERS[i] == SHORTEST_MARKERS[j];
    }
    assert Contains(k, SHORTEST_MARKERS[j]);
  }

  lemma {:induction false} LowerTwice(s: string)
    ensures LowerAll(LowerAll(s)) == LowerAll(s)
  {
    if s != "" {
      LowerTwice(s[1..]);
      assert LowerAll(s)[1..] == LowerAll(s[1..]);
    }
  }

  /** The letters agree up to ASCII case. */
  predicate SameLetter(a: char, b: char) {
    a == b || ('A' <= a <= 'Z' && b as int == a as int + 32) || ('A' <= b <= 'Z' && a as int == b as int + 32)
  }

  lemma CaseDoesNotMatter(a: string, b: string)
    requires |a| == |b| && forall k :: 0 <= k < |a| ==> SameLetter(a[k], b[k])
    ensures IsSecretKey(a) == IsSecretKey(b)
  {
    if a != "" {
      LowerAt(a, 0);
      LowerAt(b, 0);
      forall k | 0 <= k < |a| ensures LowerAll(a)[k] == LowerAll(b)[k] {
        LowerAt(a, k);
        LowerAt(b, k);
        assert SameLetter(a[k], b[k]);
      }
    }
    assert LowerAll(a) == LowerAll(b);
  }

  /** A key is secret exactly when a marker stands somewhere in its lower-case form. */
  lemma {:induction false} ContainsIff(s: string, part: string)
    ensures Contains(s, part) <==> exists i, j :: 0 <= i <= j <= |s| && s[i..j] == part
  {
    if Contains(s, part) {
      var i := FoundAt(s, part);
      assert s[i..i + |part|] == part;
    }
    if i, j :| 0 <= i <= j <= |s| && s[i..j] == part {
      assert s[i..][..|part|] == part;
      ContainsAt(s, part, i);
    }
  }

  lemma {:induction false} FoundAt(s: string, part: string) returns (i: nat)
    requires Contains(s, part)
    ensures i + |part| <= |s| && s[i..i + |part|] == part
  {
    if StartsWith(s, part) {
      i := 0;
    } else {
      var k := FoundAt(s[1..], part);
      i := k + 1;
      assert s[1..][k..k + |part|] == s[i..i + |part|];
    }
  }

  // ---- The placeholder

  lemma {:induction false} DecimalInjective(m: nat, n: nat)
    ensures Decimal(m) == Decimal(n) ==> m == n
  {
    if Decimal(m) == Decimal(n) {
      var s := Decimal(m);
      if m >= 10 && n >= 10 {
        assert s[..|s| - 1] == Decimal(m / 10) && s[..|s| - 1] == Decimal(n / 10);
        DecimalInjective(m / 10, n / 10);
        assert s[|s| - 1] == ('0' as int + m % 10) as char == ('0' as int + n % 10) as char;
      }
    }
  }

  lemma MaskInjective(m: nat, n: nat)
    ensures Mask(m) == Mask(n) ==> m == n
  {
    var head := "***redacted(";
    if Mask(m) == Mask(n) {
      assert |Decimal(m)| == |Mask(m)| - 16 == |Decimal(n)|;
      assert Mask(m)[12..12 + |Decimal(m)|] == Decimal(m);
      assert Mask(n)[12..12 + |Decimal(n)|] == Decimal(n);
      DecimalInjective(m, n);
    }
  }

  lemma {:induction false} AsciiLength(s: string)
    requires forall c :: c in s ==> c as int < 0x80
    ensures |Utf8.Encode(s)| == |s|
  {
    if s != "" {
      assert s[0] in s;
      assert forall c :: c in s[1..] ==> c in s;
      AsciiLength(s[1..]);
    }
  }

  lemma {:induction false} DecimalLength(n: nat)
    ensures forall c :: c in Decimal(n) ==> c as int < 0x80
    ensures n < 10 ==> |Decimal(n)| == 1
    ensures 10 <= n < 100 ==> |Decimal(n)| == 2
    ensures n >= 100 ==> |Decimal(n)| + 16 < n
  {
    if n >= 10 { DecimalLength(n / 10); }
  }

  lemma MaskLength(n: nat)
    ensures |Utf8.Encode(Mask(n))| == 16 + |Decimal(n)|
  {
    DecimalLength(n);
    AsciiLength(Mask(n));
  }

  /** The one text that is its own placeholder, `***redacted(18)***`. */
  const SELF_MASK: string := Mask(18)

  lemma SelfMask(s: string)
    ensures Mask(|Utf8.Encode(s)|) == s <==> s == SELF_MASK
  {
    MaskLength(18);
    DecimalLength(18);
    if Mask(|Utf8.Encode(s)|) == s {
      var n := |Utf8.Encode(s)|;
      MaskLength(n);
      DecimalLength(n);
      assert n == 18;
    }
  }

  /** The number the digits stand for. */
  function ValueOf(digits: string): int {
    if digits == "" then 0 else 10 * ValueOf(digits[..|digits| - 1]) + (digits[|digits| - 1] as int - '0' as int)
  }

  /** `Decimal` writes a number in base ten without leading zeros. */
  lemma {:induction false} DecimalIs(n: nat)
    ensures ValueOf(Decimal(n)) == n
    ensures forall k :: 0 <= k < |Decimal(n)| ==> '0' <= Decimal(n)[k] <= '9'
    ensures n > 0 ==> Decimal(n)[0] != '0'
  {
    if n >= 10 {
      var s := Decimal(n);
      DecimalIs(n / 10);
      assert s[..|s| - 1] == Decimal(n / 10);
    } else {
      assert Decimal(n)[..0] == "";
    }
  }

  lemma SelfMaskText()
    ensures SELF_MASK == "***redacted(18)***"
  {
    assert Decimal(18) == Decimal(1) + ['8'];
    assert Mask(18) == "***redacted(" + "18" + ")***";
  }

  /** Under a secret key stands the placeholder with the size of the value: bytes of a text, items
      of a list, fields of an object, printed length of anything else. */
  lemma SecretField(key: string, v: Json)
    requires IsSecretKey(key)
    ensures Redacted(Object(map[key := v])) == Object(map[key := String("***redacted(" + Decimal(SizeOf(v)) + ")***")])
  {
  }

  function SizeOf(v: Json): nat {
    if v.String? then |Utf8.Encode(v.content)|
    else if v.Array? then |v.items|
    else if v.Object? then |v.fields.Keys|
    else if v == Bool(false) then 5
    else if v.Number? then |Utf8.Encode(v.text)|
    else 4
  }

  // ---- Which documents redact alike

  /** The documents differ only inside values under secret keys, and there agree on the length. */
  ghost predicate Similar(a: Json, b: Json) {
    if a.Object? && b.Object? then
      && a.fields.Keys == b.fields.Keys
      && (forall k :: k in a.fields ==>
            if IsSecretKey(k) then ValueTextLen(a.fields[k]) == ValueTextLen(b.fields[k])
            else Similar(a.fields[k], b.fields[k]))
    else if a.Array? && b.Array? then
      |a.items| == |b.items| && (forall i :: 0 <= i < |a.items| ==> Similar(a.items[i], b.items[i]))
    else a == b
  }

  /** Redaction identifies similar documents and no others. */
  lemma {:induction false} RedactsAlikeIff(a: Json, b: Json)
    ensures Redacted(a) == Redacted(b) <==> Similar(a, b)
    decreases a, 1
  {
    if a.Object? && b.Object? {
      FieldsAlikeIff(a, b);
    } else if a.Array? && b.Array? {
      ItemsAlikeIff(a, b);
    }
  }

  lemma {:induction false} FieldsAlikeIff(a: Json, b: Json)
    requires a.Object? && b.Object?
    ensures Redacted(a) == Redacted(b) <==> Similar(a, b)
    decreases a, 0
  {
    var ra, rb := Redacted(a).fields, Redacted(b).fields;
    assert ra.Keys == a.fields.Keys && rb.Keys == b.fields.Keys;
    forall k | k in a.fields && k in b.fields
      ensures ra[k] == rb[k] <==>
        if IsSecretKey(k) then ValueTextLen(a.fields[k]) == ValueTextLen(b.fields[k]) else Similar(a.fields[k], b.fields[k])
    {
      if IsSecretKey(k) {
        MaskInjective(ValueTextLen(a.fields[k]), ValueTextLen(b.fields[k]));
      } else {
        RedactsAlikeIff(a.fields[k], b.fields[k]);
      }
    }
    if Similar(a, b) { assert ra == rb; }
  }

  lemma {:induction false} ItemsAlikeIff(a: Json, b: Json)
    requires a.Array? && b.Array?
    ensures Redacted(a) == Redacted(b) <==> Similar(a, b)
    decreases a, 0
  {
    var ra, rb := Redacted(a).items, Redacted(b).items;
    forall i | 0 <= i < |a.items| && i < |b.items|
      ensures ra[i] == rb[i] <==> Similar(a.items[i], b.items[i])
    {
      RedactsAlikeIff(a.items[i], b.items[i]);
    }
    if Similar(a, b) { assert ra == rb; }
  }

  // ---- Which documents are left unchanged

  /** Whatever stands under a secret key is the placeholder that stands for itself. */
  ghost predicate NothingToRedact(v: Json) {
    match v
    case Object(fields) =>
      forall k :: k in fields ==> if IsSecretKey(k) then fields[k] == String(SELF_MASK) else NothingToRedact(fields[k])
    case Array(items) => forall i :: 0 <= i < |items| ==> NothingToRedact(items[i])
    case _ => true
  }

  /** A document is unchanged exactly when it has nothing to redact. */
  lemma {:induction false} UnchangedIff(v: Json)
    ensures Redacted(v) == v <==> NothingToRedact(v)
  {
    match v
    case Object(fields) =>
      var out := Redacted(v).fields;
      forall k | k in fields
        ensures out[k] == fields[k] <==>
          if IsSecretKey(k) then fields[k] == String(SELF_MASK) else NothingToRedact(fields[k])
      {
        if IsSecretKey(k) {
          if fields[k].String? { SelfMask(fields[k].content); }
        } else {
          UnchangedIff(fields[k]);
        }
      }
      if NothingToRedact(v) { assert out == fields; }
    case Array(items) =>
      var out := Redacted(v).items;
      forall i | 0 <= i < |items|
        ensures out[i] == items[i] <==> NothingToRedact(items[i])
      {
        UnchangedIff(items[i]);
      }
      if NothingToRedact(v) { assert out == items; }
    case _ =>
  }

  /** No field of the document, at any depth, has a secret key. */
  ghost predicate NoSecretKey(v: Json) {
    match v
    case Object(fields) => forall k :: k in fields ==> !IsSecretKey(k) && NoSecretKey(fields[k])
    case Array(items) => forall i :: 0 <= i < |items| ==> NoSecretKey(items[i])
    case _ => true
  }

  lemma {:induction false} NoSecretKeyUnchanged(v: Json)
    requires NoSecretKey(v)
    ensures NothingToRedact(v) && Redacted(v) == v
    decreases v
  {
    match v
    case Object(fields) =>
      forall k | k in fields ensures NothingToRedact(fields[k]) { NoSecretKeyUnchanged(fields[k]); }
      UnchangedIff(v);
    case Array(items) =>
      forall i | 0 <= i < |items| ensures NothingToRedact(items[i]) { NoSecretKeyUnchanged(items[i]); }
      UnchangedIff(v);
    case _ =>
  }

  // ---- What is kept of a document's structure

  datatype Step = Key(key: string) | Index(index: nat)

  function Child(v: Json, step: Step): Option<Json> {
    match (v, step)
    case (Object(fields), Key(k)) => if k in fields then Some(fields[k]) else None
    case (Array(items), Index(i)) => if i < |items| then Some(items[i]) else None
    case _ => None
  }

  /** The value at a path. */
  function Follow(v: Json, path: seq<Step>): Option<Json> {
    if path == [] then Some(v)
    else if Child(v, path[0]).None? then None
    else Follow(Child(v, path[0]).value, path[1..])
  }

  predicate Secret(step: Step) { step.Key? && IsSecretKey(step.key) }

  ghost predicate Open(path: seq<Step>) { forall i :: 0 <= i < |path| ==> !Secret(path[i]) }

  lemma ChildRedacted(v: Json, step: Step)
    ensures Child(Redacted(v), step)
         == if Child(v, step).None? then None
            else if Secret(step) then Some(String(Mask(ValueTextLen(Child(v, step).value))))
            else Some(Redacted(Child(v, step).value))
  {
  }

  /** At a path without secret keys the output holds the redaction of the input's value. A secret
      key at the end of such a path leads to the placeholder, and further steps lead nowhere. */
  lemma {:induction false} FollowRedacted(v: Json, path: seq<Step>, secret: Step, beyond: seq<Step>)
    requires Open(path) && Secret(secret)
    ensures Follow(Redacted(v), path) == if Follow(v, path).None? then None else Some(Redacted(Follow(v, path).value))
    ensures Follow(Redacted(v), path + [secret] + beyond)
      == if Follow(v, path + [secret]).None? || beyond != [] then None
         else Some(String(Mask(ValueTextLen(Follow(v, path + [secret]).value))))
    decreases |path|
  {
    var whole := path + [secret] + beyond;
    if path == [] {
      assert whole[0] == secret && whole[1..] == beyond;
      ChildRedacted(v, secret);
      var child := Child(v, secret);
      assert Follow(v, [secret]) == if child.None? then None else Some(child.value);
      if beyond != [] && child.Some? {
        assert Child(String(Mask(ValueTextLen(child.value))), beyond[0]).None?;
      }
    } else {
      ChildRedacted(v, path[0]);
      assert whole[0] == path[0] && whole[1..] == path[1..] + [secret] + beyond;
      assert (path + [secret])[1..] == path[1..] + [secret];
      if Child(v, path[0]).Some? {
        FollowRedacted(Child(v, path[0]).value, path[1..], secret, beyond);
      }
    }
  }
}
