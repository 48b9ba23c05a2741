/** Masking sensitive values before they are logged (app/utils/logging_utils.py, class SecureLogger). */
module LoggingUtils {
  import opened PyText

  /** The values a logging call passes as keyword arguments. A UUID is given by its canonical text. */
  datatype Data =
    | DDict(entries: seq<Entry>)
    | DList(items: seq<Data>)
    | DStr(s: string)
    | DUuid(text: string)
    | DInt(i: int)
    | DBool(b: bool)
    | DNone
    | DOther(repr: string)

  /** One key and value of a dict; a Python dict never repeats a key, and keeps insertion order. */
  datatype Entry = Entry(key: string, value: Data)

  const Masked := "***MASKED***"
  const DefaultMaxLength := 50
  const UuidLength := 36

  /** `repr(d)`. Quotes inside strings are not escaped. */
  function Repr(d: Data): string
    decreases d
  {
    match d
    case DDict(es) =>
      "{" + JoinWith(", ", seq(|es|, i requires 0 <= i < |es| => "'" + es[i].key + "': " + Repr(es[i].value))) + "}"
    case DList(xs) => "[" + JoinWith(", ", seq(|xs|, i requires 0 <= i < |xs| => Repr(xs[i]))) + "]"
    case DStr(s) => "'" + s + "'"
    case DUuid(t) => "UUID('" + t + "')"
    case DInt(i) => IntToString(i)
    case DBool(b) => if b then "True" else "False"
    case DNone => "None"
    case DOther(r) => r
  }

  /** `str(d)` */
  function PyStr(d: Data): string
  {
    match d
    case DStr(s) => s
    case DUuid(t) => t
    case _ => Repr(d)
  }

  /** The index of the first occurrence of `c` in `s`. */
  function IndexOf(s: string, c: char): (i: nat)
    requires c in s
    ensures i < |s| && s[i] == c && c !in s[..i]
  {
    if s[0] == c then 0 else 1 + IndexOf(s[1..], c)
  }

  /** `mask_uuid` */
  function MaskUuid(u: string): string
  {
    if u == "" then "" else PyPrefix(u, 8) + "***"
  }

  /** `mask_email`: the first three characters of the part before the first "@", then "***@" and the rest. */
  function MaskEmail(email: string): string
  {
    if email == "" || '@' !in email then "***"
    else
      var at := IndexOf(email, '@');
      PyPrefix(email[..at], 3) + "***@" + email[at + 1..]
  }

  /** `mask_token` */
  function MaskToken(token: string): string
  {
    if token == "" then "" else PyPrefix(token, 10) + "***"
  }

  /** `mask_password` */
  function MaskPassword(password: string): string
  {
    Masked
  }

  /** `mask_message_content` */
  function MaskMessageContent(content: string, maxLength: int): string
  {
    if content == "" then ""
    else if |content| <= maxLength then content
    else PyPrefix(content, maxLength) + "..."
  }

  /** A key whose lower-cased text contains password, token, secret or key. */
  predicate SensitiveKey(key: string)
  {
    var k := Lower(key);
    Contains(k, "password") || Contains(k, "token") || Contains(k, "secret") || Contains(k, "key")
  }

  /** The value `sanitize_data` stores under `key`. */
  function SanitizedField(key: string, v: Data): Data
    decreases v, 1
  {
    var k := Lower(key);
    if SensitiveKey(key) then DStr(Masked)
    else if Contains(k, "email") then DStr(MaskEmail(PyStr(v)))
    else if Contains(k, "id") && (v.DStr? || v.DUuid?) then DStr(MaskUuid(PyStr(v)))
    else if Contains(k, "content") && v.DStr? then DStr(MaskMessageContent(v.s, DefaultMaxLength))
    else Sanitized(v)
  }

  /** What `sanitize_data` returns. */
  function Sanitized(d: Data): Data
    decreases d, 0
  {
    match d
    case DDict(es) => DDict(seq(|es|, i requires 0 <= i < |es| => Entry(es[i].key, SanitizedField(es[i].key, es[i].value))))
    case DList(xs) => DList(seq(|xs|, i requires 0 <= i < |xs| => Sanitized(xs[i])))
    case DStr(s) => if |s| == UuidLength then DStr(MaskUuid(s)) else d
    case DUuid(t) => if |t| == UuidLength then DStr(MaskUuid(t)) else d
    case _ => d
  }

  /** `sanitize_data`: fills a fresh dict key by key, maps lists item by item, and recurses. */
  method SanitizeData(d: Data) returns (r: Data)
    ensures r == Sanitized(d)
    decreases d, 0
  {
    match d {
      case DDict(es) =>
        var sanitized: seq<Entry> := [];
        for i := 0 to |es|
          invariant |sanitized| == i
          invariant forall k :: 0 <= k < i ==> sanitized[k] == Entry(es[k].key, SanitizedField(es[k].key, es[k].value))
        {
          var value := SanitizeField(es[i].key, es[i].value);
          sanitized := sanitized + [Entry(es[i].key, value)];
        }
        r := DDict(sanitized);
      case DList(xs) =>
        var items: seq<Data> := [];
        for i := 0 to |xs|
          invariant |items| == i
          invariant forall k :: 0 <= k < i ==> items[k] == Sanitized(xs[k])
        {
          var item := SanitizeData(xs[i]);
          items := items + [item];
        }
        r := DList(items);
      case _ =>
        r := Sanitized(d);
    }
  }

  /** The branch of the dict loop that computes one value. */
  method SanitizeField(key: string, v: Data) returns (r: Data)
    ensures r == SanitizedField(key, v)
    decreases v, 1
  {
    var keyLower := Lower(key);
    if SensitiveKey(key) {
      r := DStr(Masked);
    } else if Contains(keyLower, "email") {
      r := DStr(MaskEmail(PyStr(v)));
    } else if Contains(keyLower, "id") && (v.DStr? || v.DUuid?) {
      r := DStr(MaskUuid(PyStr(v)));
    } else if Contains(keyLower, "content") && v.DStr? {
      r := DStr(MaskMessageContent(v.s, DefaultMaxLength));
    } else {
      r := SanitizeData(v);
    }
  }

  // ---------------------------------------------------------------- lemmas

  /** A masked UUID keeps at most its first eight characters and ends in "***". */
  lemma MaskUuidSpec(u: string)
    ensures u == "" ==> MaskUuid(u) == ""
    ensures u != "" ==> MaskUuid(u) == u[..Min(8, |u|)] + "***" && |MaskUuid(u)| <= 11
  {
  }

  /** For an address `local@domain` whose local part has no "@", the mask keeps at most three characters of the
      local part and the whole domain; without an "@" everything is hidden. */
  lemma MaskEmailSpec(local: string, domain: string)
    requires '@' !in local
    ensures MaskEmail(local + "@" + domain) == PyPrefix(local, 3) + "***@" + domain
  {
    var e := local + "@" + domain;
    assert e[|local|] == '@';
    assert e[..|local|] == local;
    var at := IndexOf(e, '@');
    assert at == |local|;
    assert e[..at] == local;
    assert e[at + 1..] == domain;
  }

  lemma MaskEmailHides(email: string)
    requires '@' !in email
    ensures MaskEmail(email) == "***"
  {
  }

  /** An empty token stays empty, any other token mask keeps at most ten characters; a password mask is constant. */
  lemma MaskTokenSpec(token: string, p: string, q: string)
    ensures token == "" ==> MaskToken(token) == ""
    ensures token != "" ==> MaskToken(token) == token[..Min(10, |token|)] + "***"
    ensures MaskPassword(p) == MaskPassword(q) == "***MASKED***"
  {
  }

  /** Content within the limit is kept as is; longer content is cut to the limit and "..." is added. */
  lemma MaskMessageContentSpec(content: string, maxLength: int)
    requires maxLength >= 0
    ensures |content| <= maxLength ==> MaskMessageContent(content, maxLength) == content
    ensures |content| > maxLength ==>
              MaskMessageContent(content, maxLength) == content[..maxLength] + "..."
    ensures |MaskMessageContent(content, maxLength)| <= maxLength + 3
  {
  }

  /** A sanitised dict has the same keys in the same order; a sensitive key is masked whatever else it
      contains; a sanitised list has the same length, each item sanitised on its own. */
  lemma SanitizedShape(d: Data)
    ensures d.DDict? ==>
              && Sanitized(d).DDict?
              && |Sanitized(d).entries| == |d.entries|
              && forall i :: 0 <= i < |d.entries| ==>
                   && Sanitized(d).entries[i].key == d.entries[i].key
                   && (SensitiveKey(d.entries[i].key) ==> Sanitized(d).entries[i].value == DStr("***MASKED***"))
    ensures d.DList? ==>
              Sanitized(d).DList? && |Sanitized(d).items| == |d.items| &&
              forall i :: 0 <= i < |d.items| ==> Sanitized(d).items[i] == Sanitized(d.items[i])
  {
  }

  /** The key rules in order: sensitive words first, then email, then id for string or UUID values, then
      content for string values, otherwise recursion into the value. */
  lemma FieldRules(key: string, v: Data)
    ensures SensitiveKey(key) ==> SanitizedField(key, v) == DStr("***MASKED***")
    ensures !SensitiveKey(key) && Contains(Lower(key), "email") ==> SanitizedField(key, v) == DStr(MaskEmail(PyStr(v)))
    ensures !SensitiveKey(key) && !Contains(Lower(key), "email") && Contains(Lower(key), "id") && v.DStr? ==>
              SanitizedField(key, v) == DStr(MaskUuid(v.s))
    ensures !SensitiveKey(key) && !Contains(Lower(key), "email") && Contains(Lower(key), "id") && v.DUuid? ==>
              SanitizedField(key, v) == DStr(MaskUuid(v.text))
    ensures !SensitiveKey(key) && !Contains(Lower(key), "email") &&
            !(Contains(Lower(key), "id") && (v.DStr? || v.DUuid?)) &&
            Contains(Lower(key), "content") && v.DStr? ==>
              SanitizedField(key, v) == DStr(MaskMessageContent(v.s, 50))
    ensures !SensitiveKey(key) && !Contains(Lower(key), "email") &&
            !(Contains(Lower(key), "id") && (v.DStr? || v.DUuid?)) &&
            !(Contains(Lower(key), "content") && v.DStr?) ==>
              SanitizedField(key, v) == Sanitized(v)
  {
  }

  /** A key containing "password" in any letter case is sensitive, whatever surrounds it. */
  lemma PasswordKeysSensitive(prefix: string, p: string, suffix: string)
    requires Lower(p) == "password"
    ensures SensitiveKey(prefix + p + suffix)
  {
    var k := prefix + p + suffix;
    LowerAppend(prefix + p, suffix);
    LowerAppend(prefix, p);
    var lk := Lower(k);
    assert lk == Lower(prefix) + "password" + Lower(suffix);
    assert lk[|prefix|..|prefix| + 8] == "password";
    ContainsAt(lk, |prefix|, "password");
  }

  /** A bare 36-character string or UUID is masked, other scalars are returned unchanged. */
  lemma ScalarRules(s: string, i: int, b: bool)
    ensures |s| == 36 ==> Sanitized(DStr(s)) == DStr(s[..8] + "***")
    ensures |s| == 36 ==> Sanitized(DUuid(s)) == DStr(s[..8] + "***")
    ensures |s| != 36 ==> Sanitized(DStr(s)) == DStr(s)
    ensures Sanitized(DInt(i)) == DInt(i) && Sanitized(DBool(b)) == DBool(b) && Sanitized(DNone) == DNone
  {
  }

  lemma LowerAppend(a: string, b: string)
    ensures Lower(a + b) == Lower(a) + Lower(b)
  {
  }

  lemma {:induction false} ContainsAt(s: string, at: nat, sub: string)
    requires at + |sub| <= |s| && s[at..at + |sub|] == sub
    ensures Contains(s, sub)
    decreases at
  {
    if at == 0 {
      assert s[..|sub|] == sub;
    } else {
      assert s[1..][at - 1..at - 1 + |sub|] == s[at..at + |sub|];
      ContainsAt(s[1..], at - 1, sub);
    }
  }
}
