/**
 * The input validators and the schema validator of src/utils/validation.js. Field values
 * are JavaScript values restricted to `undefined`, `null` and strings; the URL check relies
 * on the platform's URL parser and is therefore a parameter.
 */
module Validation {
  import opened Common

  datatype Value = Undefined | Null | Str(s: string)

  /** JavaScript truthiness of a field value. */
  predicate Truthy(v: Value)
  {
    v.Str? && v.s != ""
  }

  /** `validators.isRequired`. */
  predicate IsRequired(v: Value)
  {
    v != Null && v != Undefined && v != Str("")
  }

  /** `validators.minLength` (as the truth value of `value && value.length >= min`). */
  predicate MinLength(v: Value, min: int)
  {
    Truthy(v) && |v.s| >= min
  }

  /** `validators.maxLength`. */
  predicate MaxLength(v: Value, max: int)
  {
    !Truthy(v) || |v.s| <= max
  }

  /** Only `null`, `undefined` and the empty string fail `isRequired`, and those are exactly the falsy values. */
  lemma RequiredIsTruthy(v: Value)
    ensures !IsRequired(v) <==> v == Null || v == Undefined || v == Str("")
    ensures IsRequired(v) <==> Truthy(v)
  {
  }

  /** A falsy value passes `maxLength` for any bound and fails `minLength` for any bound. */
  lemma FalsyLengthChecks(v: Value, n: int)
    requires !Truthy(v)
    ensures MaxLength(v, n) && !MinLength(v, n)
  {
  }

  // ---------------------------------------------------------------------------
  // isEmail
  // ---------------------------------------------------------------------------

  /** The characters JavaScript's `\s` matches. */
  predicate IsJsWhitespace(c: char)
  {
    c == ' ' || c == '\t' || c == '\n' || c == '\r' || c == '\U{B}' || c == '\U{C}' ||
    c == '\U{A0}' || c == '\U{1680}' || ('\U{2000}' <= c <= '\U{200A}') ||
    c == '\U{2028}' || c == '\U{2029}' || c == '\U{202F}' || c == '\U{205F}' ||
    c == '\U{3000}' || c == '\U{FEFF}'
  }

  /** The class `[^\s@]`. */
  predicate EmailChar(c: char)
  {
    c != '@' && !IsJsWhitespace(c)
  }

  /** Every character of `s` is in the class `[^\s@]`, scanned from the front. */
  predicate AllEmailChars(s: string)
    decreases |s|
  {
    s == [] || (EmailChar(s[0]) && AllEmailChars(s[1..]))
  }

  /** The same, as a statement about every position (the reading the regular expression uses). */
  ghost predicate InEmailClass(s: string)
  {
    forall i :: 0 <= i < |s| ==> EmailChar(s[i])
  }

  lemma {:induction false} AllEmailCharsIff(s: string)
    ensures AllEmailChars(s) <==> InEmailClass(s)
    decreases |s|
  {
    if s != [] {
      AllEmailCharsIff(s[1..]);
      assert forall i :: 1 <= i < |s| ==> s[1..][i - 1] == s[i];
    }
  }

  /**
   * What the pattern `^[^\s@]+@[^\s@]+\.[^\s@]+$` accepts: a non-empty local part, `@`, a non-empty
   * host, `.`, and a non-empty tail, none of the three parts holding `@` or whitespace.
   */
  ghost predicate MatchesEmailPattern(s: string)
  {
    exists i, j :: 0 < i && i + 1 < j && j + 1 < |s| && s[i] == '@' && s[j] == '.' &&
      InEmailClass(s[..i]) && InEmailClass(s[i + 1..j]) && InEmailClass(s[j + 1..])
  }

  /** The index of the first `c` in `s` at or after position `from`. */
  function IndexFrom(s: string, c: char, from: nat): (r: Option<nat>)
    requires from <= |s|
    ensures r.Some? ==> from <= r.value < |s|
    decreases |s| - from
  {
    if from == |s| then None
    else if s[from] == c then Some(from)
    else IndexFrom(s, c, from + 1)
  }

  /** `IndexFrom` finds the first occurrence at or after `from`, and finds none only when there is none. */
  lemma {:induction false} IndexFromSpec(s: string, c: char, from: nat)
    requires from <= |s|
    ensures IndexFrom(s, c, from).None? ==> forall k :: from <= k < |s| ==> s[k] != c
    ensures IndexFrom(s, c, from).Some? ==>
              s[IndexFrom(s, c, from).value] == c && forall k :: from <= k < IndexFrom(s, c, from).value ==> s[k] != c
    decreases |s| - from
  {
    if from < |s| && s[from] != c {
      IndexFromSpec(s, c, from + 1);
    }
  }

  /** `d` has a `.` with at least one character before and after it: the first dot after position 0 is not the last character. */
  predicate HasInnerDot(d: string)
  {
    |d| >= 3 && var p := IndexFrom(d, '.', 1); p.Some? && p.value <= |d| - 2
  }

  /** `validators.isEmail`, read directly: one `@` after a non-empty local part, no whitespace, and a dotted domain. */
  predicate IsEmail(s: string)
  {
    var at := IndexFrom(s, '@', 0);
    at.Some? && at.value > 0 &&
    AllEmailChars(s[..at.value]) && AllEmailChars(s[at.value + 1..]) && HasInnerDot(s[at.value + 1..])
  }

  /** A domain the direct reading accepts is a host, a dot and a tail, all in the class. */
  lemma DomainSplit(d: string) returns (p: nat)
    requires AllEmailChars(d) && HasInnerDot(d)
    ensures 1 <= p <= |d| - 2 && d[p] == '.'
    ensures InEmailClass(d[..p]) && InEmailClass(d[p + 1..])
  {
    p := IndexFrom(d, '.', 1).value;
    IndexFromSpec(d, '.', 1);
    AllEmailCharsIff(d);
    assert forall q :: 0 <= q < p ==> d[..p][q] == d[q];
    assert forall q :: p + 1 <= q < |d| ==> d[p + 1..][q - p - 1] == d[q];
  }

  /** Every string the direct reading accepts matches the regular expression. */
  lemma IsEmailSound(s: string)
    requires IsEmail(s)
    ensures MatchesEmailPattern(s)
  {
    var k := IndexFrom(s, '@', 0).value;
    IndexFromSpec(s, '@', 0);
    AllEmailCharsIff(s[..k]);
    var d := s[k + 1..];
    var p := DomainSplit(d);
    var j := k + 1 + p;
    assert s[j] == '.';
    assert s[k + 1..j] == d[..p];
    assert s[j + 1..] == d[p + 1..];
  }

  /** A host and a tail joined by a dot form a domain the direct reading accepts. */
  lemma DottedDomain(host: string, tail: string)
    requires host != [] && tail != [] && InEmailClass(host) && InEmailClass(tail)
    ensures AllEmailChars(host + ['.'] + tail) && HasInnerDot(host + ['.'] + tail)
  {
    var d := host + ['.'] + tail;
    forall q | 0 <= q < |d| ensures EmailChar(d[q]) {
      if q < |host| {
        assert d[q] == host[q];
      } else if q > |host| {
        assert d[q] == tail[q - |host| - 1];
      }
    }
    AllEmailCharsIff(d);
    assert d[|host|] == '.';
    IndexFromSpec(d, '.', 1);
  }

  /** In a string whose prefix before `i` has no `@` and which has `@` at `i`, the first `@` is at `i`. */
  lemma FirstAt(s: string, i: nat)
    requires i < |s| && s[i] == '@' && InEmailClass(s[..i])
    ensures IndexFrom(s, '@', 0) == Some(i)
  {
    forall q | 0 <= q < i ensures s[q] != '@' {
      assert EmailChar(s[..i][q]);
    }
    IndexFromSpec(s, '@', 0);
  }

  /** A string split as the regular expression demands, at `@` position `i` and dot position `j`, is accepted. */
  lemma IsEmailSplit(s: string, i: nat, j: nat)
    requires 0 < i && i + 1 < j && j + 1 < |s| && s[i] == '@' && s[j] == '.'
    requires InEmailClass(s[..i]) && InEmailClass(s[i + 1..j]) && InEmailClass(s[j + 1..])
    ensures IsEmail(s)
  {
    FirstAt(s, i);
    AllEmailCharsIff(s[..i]);
    assert s[i + 1..] == s[i + 1..j] + ['.'] + s[j + 1..];
    DottedDomain(s[i + 1..j], s[j + 1..]);
  }

  /** Every string the regular expression matches, the direct reading accepts. */
  lemma IsEmailComplete(s: string)
    requires MatchesEmailPattern(s)
    ensures IsEmail(s)
  {
    var i, j :| 0 < i && i + 1 < j && j + 1 < |s| && s[i] == '@' && s[j] == '.' &&
      InEmailClass(s[..i]) && InEmailClass(s[i + 1..j]) && InEmailClass(s[j + 1..]);
    IsEmailSplit(s, i, j);
  }

  /** The direct reading accepts exactly the strings the regular expression matches. */
  lemma IsEmailMatchesPattern(s: string)
    ensures IsEmail(s) <==> MatchesEmailPattern(s)
  {
    if IsEmail(s) {
      IsEmailSound(s);
    }
    if MatchesEmailPattern(s) {
      IsEmailComplete(s);
    }
  }

  /** A dotted domain is required, and a space anywhere is refused. */
  lemma EmailExamples()
    ensures IsEmail("a@b.c")
    ensures !IsEmail("a@b") && !IsEmail("@b.c") && !IsEmail("a b@c.d") && !IsEmail("a@b@c.d")
  {
    assert IndexFrom("a@b.c", '@', 0) == Some(1);
    assert "a@b.c"[..1] == "a" && "a@b.c"[2..] == "b.c";
    assert IndexFrom("b.c", '.', 1) == Some(1);
    assert AllEmailChars("b.c");
    assert IndexFrom("a b@c.d", '@', 0) == Some(3);
    assert !EmailChar("a b"[1]);
    assert IndexFrom("a@b@c.d", '@', 0) == Some(1);
    assert !EmailChar("a@b@c.d"[2..][1]);
  }

  // ---------------------------------------------------------------------------
  // validateSchema
  // ---------------------------------------------------------------------------

  /**
   * The rules of one schema field. A length bound the schema does not give is 0 here: both read as
   * falsy in `if (rules.minLength && ...)`, so either way the rule is off.
   */
  datatype Rules = Rules(required: bool, email: bool, url: bool, minLength: int, maxLength: int)

  /** The rule a field broke, in the order the rules are checked. */
  datatype RuleKind = RequiredRule | EmailRule | UrlRule | MinLengthRule(min: int) | MaxLengthRule(max: int)

  function Rank(k: RuleKind): nat
  {
    match k
    case RequiredRule => 0
    case EmailRule => 1
    case UrlRule => 2
    case MinLengthRule(_) => 3
    case MaxLengthRule(_) => 4
  }

  datatype FieldError = FieldError(field: string, rule: RuleKind)

  /** The text pushed onto the error list for a broken rule. */
  function Message(e: FieldError): string
  {
    match e.rule
    case RequiredRule => e.field + " is required"
    case EmailRule => e.field + " must be a valid email"
    case UrlRule => e.field + " must be a valid URL"
    case MinLengthRule(n) => e.field + " must be at least " + IntToString(n) + " characters"
    case MaxLengthRule(n) => e.field + " must be at most " + IntToString(n) + " characters"
  }

  function Messages(es: seq<FieldError>): (ms: seq<string>)
    ensures |ms| == |es|
    ensures forall i :: 0 <= i < |es| ==> ms[i] == Message(es[i])
  {
    seq(|es|, i requires 0 <= i < |es| => Message(es[i]))
  }

  lemma MessagesAppend(a: seq<FieldError>, b: seq<FieldError>)
    ensures Messages(a + b) == Messages(a) + Messages(b)
  {
  }

  /** `data[field]`: a missing key reads as `undefined`. */
  function ValueOf(data: map<string, Value>, field: string): Value
  {
    if field in data then data[field] else Undefined
  }

  /** One rule's contribution: its error when the rule is broken. */
  function Check(broken: bool, e: FieldError): seq<FieldError>
  {
    if broken then [e] else []
  }

  /** The rules one field breaks, in rule order; the email and URL checks only look at truthy values. */
  function FieldErrors(field: string, rules: Rules, v: Value, isUrl: string -> bool): seq<FieldError>
  {
    Check(rules.required && !IsRequired(v), FieldError(field, RequiredRule)) +
    Check(rules.email && Truthy(v) && !IsEmail(v.s), FieldError(field, EmailRule)) +
    Check(rules.url && Truthy(v) && !isUrl(v.s), FieldError(field, UrlRule)) +
    Check(rules.minLength != 0 && !MinLength(v, rules.minLength), FieldError(field, MinLengthRule(rules.minLength))) +
    Check(rules.maxLength != 0 && !MaxLength(v, rules.maxLength), FieldError(field, MaxLengthRule(rules.maxLength)))
  }

  /** Every error in `es` names `field`, has a rank in `[lo, hi)`, and the ranks strictly increase. */
  ghost predicate RankedFor(es: seq<FieldError>, field: string, lo: nat, hi: nat)
  {
    (forall i :: 0 <= i < |es| ==> es[i].field == field && lo <= Rank(es[i].rule) < hi) &&
    (forall i, j :: 0 <= i < j < |es| ==> Rank(es[i].rule) < Rank(es[j].rule))
  }

  lemma RankedCheck(broken: bool, e: FieldError, lo: nat, hi: nat)
    requires lo <= Rank(e.rule) < hi
    ensures RankedFor(Check(broken, e), e.field, lo, hi)
  {
  }

  /** Errors of lower-ranked rules followed by errors of higher-ranked rules stay in order. */
  lemma RankedAppend(x: seq<FieldError>, y: seq<FieldError>, field: string, lo: nat, mid: nat, hi: nat)
    requires lo <= mid <= hi && RankedFor(x, field, lo, mid) && RankedFor(y, field, mid, hi)
    ensures RankedFor(x + y, field, lo, hi)
  {
    var xy := x + y;
    forall i | 0 <= i < |xy| ensures xy[i].field == field && lo <= Rank(xy[i].rule) < hi {
      if i < |x| {
        assert xy[i] == x[i];
      } else {
        assert xy[i] == y[i - |x|];
      }
    }
    forall i, j | 0 <= i < j < |xy| ensures Rank(xy[i].rule) < Rank(xy[j].rule) {
      if j < |x| {
      } else if i < |x| {
        assert xy[j] == y[j - |x|];
      } else {
        assert xy[i] == y[i - |x|] && xy[j] == y[j - |x|];
      }
    }
  }

  /** The five rules' contributions, whichever of them are broken, are ranked in checking order. */
  lemma ChecksRanked(field: string, b1: bool, b2: bool, b3: bool, b4: bool, b5: bool, min: int, max: int)
    ensures RankedFor(Check(b1, FieldError(field, RequiredRule)) + Check(b2, FieldError(field, EmailRule)) +
                      Check(b3, FieldError(field, UrlRule)) + Check(b4, FieldError(field, MinLengthRule(min))) +
                      Check(b5, FieldError(field, MaxLengthRule(max))), field, 0, 5)
  {
    var e1, e2, e3 := Check(b1, FieldError(field, RequiredRule)), Check(b2, FieldError(field, EmailRule)), Check(b3, FieldError(field, UrlRule));
    var e4, e5 := Check(b4, FieldError(field, MinLengthRule(min))), Check(b5, FieldError(field, MaxLengthRule(max)));
    RankedCheck(b1, FieldError(field, RequiredRule), 0, 1);
    RankedCheck(b2, FieldError(field, EmailRule), 1, 2);
    RankedCheck(b3, FieldError(field, UrlRule), 2, 3);
    RankedCheck(b4, FieldError(field, MinLengthRule(min)), 3, 4);
    RankedCheck(b5, FieldError(field, MaxLengthRule(max)), 4, 5);
    RankedAppend(e1, e2, field, 0, 1, 2);
    RankedAppend(e1 + e2, e3, field, 0, 2, 3);
    RankedAppend(e1 + e2 + e3, e4, field, 0, 3, 4);
    RankedAppend(e1 + e2 + e3 + e4, e5, field, 0, 4, 5);
  }

  /** Every error of a field names that field, and the rules are reported in checking order, each at most once. */
  lemma FieldErrorsOrdered(field: string, rules: Rules, v: Value, isUrl: string -> bool)
    ensures var es := FieldErrors(field, rules, v, isUrl);
      (forall i :: 0 <= i < |es| ==> es[i].field == field) &&
      (forall i, j :: 0 <= i < j < |es| ==> Rank(es[i].rule) < Rank(es[j].rule))
  {
    ChecksRanked(field, rules.required && !IsRequired(v), rules.email && Truthy(v) && !IsEmail(v.s),
                 rules.url && Truthy(v) && !isUrl(v.s), rules.minLength != 0 && !MinLength(v, rules.minLength),
                 rules.maxLength != 0 && !MaxLength(v, rules.maxLength), rules.minLength, rules.maxLength);
  }

  /** The concatenation of a list of error lists, in order. */
  function Concat(parts: seq<seq<FieldError>>): seq<FieldError>
    decreases |parts|
  {
    if parts == [] then [] else Concat(parts[..|parts| - 1]) + parts[|parts| - 1]
  }

  lemma {:induction false} ConcatAppend(p: seq<seq<FieldError>>, q: seq<seq<FieldError>>)
    ensures Concat(p + q) == Concat(p) + Concat(q)
    decreases |q|
  {
    if q == [] {
      assert p + q == p;
    } else {
      assert (p + q)[..|p + q| - 1] == p + q[..|q| - 1];
      ConcatAppend(p, q[..|q| - 1]);
    }
  }

  lemma {:induction false} ConcatEmpty(p: seq<seq<FieldError>>)
    ensures Concat(p) == [] <==> forall k :: 0 <= k < |p| ==> p[k] == []
    decreases |p|
  {
    if p != [] {
      var init := p[..|p| - 1];
      ConcatEmpty(init);
      assert forall k :: 0 <= k < |init| ==> init[k] == p[k];
    }
  }

  /** The error list of each schema field, in schema order. */
  function PerField(schema: seq<(string, Rules)>, data: map<string, Value>, isUrl: string -> bool): (ps: seq<seq<FieldError>>)
    ensures |ps| == |schema|
    ensures forall k :: 0 <= k < |schema| ==> ps[k] == FieldErrors(schema[k].0, schema[k].1, ValueOf(data, schema[k].0), isUrl)
  {
    seq(|schema|, k requires 0 <= k < |schema| => FieldErrors(schema[k].0, schema[k].1, ValueOf(data, schema[k].0), isUrl))
  }

  /** The errors of a whole schema: each field's errors, in the schema's field order. */
  function SchemaErrors(schema: seq<(string, Rules)>, data: map<string, Value>, isUrl: string -> bool): seq<FieldError>
  {
    Concat(PerField(schema, data, isUrl))
  }

  lemma PerFieldAppend(a: seq<(string, Rules)>, b: seq<(string, Rules)>, data: map<string, Value>, isUrl: string -> bool)
    ensures PerField(a + b, data, isUrl) == PerField(a, data, isUrl) + PerField(b, data, isUrl)
  {
    var whole, pa, pb := PerField(a + b, data, isUrl), PerField(a, data, isUrl), PerField(b, data, isUrl);
    forall k | 0 <= k < |a + b| ensures whole[k] == (pa + pb)[k] {
      if k < |a| {
        assert (a + b)[k] == a[k];
      } else {
        assert (a + b)[k] == b[k - |a|];
      }
    }
  }

  /** The errors of a concatenated schema are the errors of its parts, in order. */
  lemma SchemaErrorsAppend(a: seq<(string, Rules)>, b: seq<(string, Rules)>, data: map<string, Value>, isUrl: string -> bool)
    ensures SchemaErrors(a + b, data, isUrl) == SchemaErrors(a, data, isUrl) + SchemaErrors(b, data, isUrl)
  {
    PerFieldAppend(a, b, data, isUrl);
    ConcatAppend(PerField(a, data, isUrl), PerField(b, data, isUrl));
  }

  /** Errors are grouped by field in schema order: the errors of field `k` sit between those of the fields before and after it. */
  lemma SchemaErrorsAround(schema: seq<(string, Rules)>, data: map<string, Value>, isUrl: string -> bool, k: int)
    requires 0 <= k < |schema|
    ensures SchemaErrors(schema, data, isUrl) ==
              SchemaErrors(schema[..k], data, isUrl) +
              FieldErrors(schema[k].0, schema[k].1, ValueOf(data, schema[k].0), isUrl) +
              SchemaErrors(schema[k + 1..], data, isUrl)
  {
    assert schema == schema[..k] + [schema[k]] + schema[k + 1..];
    SchemaErrorsAppend(schema[..k] + [schema[k]], schema[k + 1..], data, isUrl);
    SchemaErrorsAppend(schema[..k], [schema[k]], data, isUrl);
    assert PerField([schema[k]], data, isUrl) == [FieldErrors(schema[k].0, schema[k].1, ValueOf(data, schema[k].0), isUrl)];
    assert Concat(PerField([schema[k]], data, isUrl)) == FieldErrors(schema[k].0, schema[k].1, ValueOf(data, schema[k].0), isUrl);
  }

  /** A schema passes exactly when every one of its fields passes. */
  lemma NoErrorsIffFieldsPass(schema: seq<(string, Rules)>, data: map<string, Value>, isUrl: string -> bool)
    ensures SchemaErrors(schema, data, isUrl) == [] <==>
              forall k :: 0 <= k < |schema| ==> FieldErrors(schema[k].0, schema[k].1, ValueOf(data, schema[k].0), isUrl) == []
  {
    ConcatEmpty(PerField(schema, data, isUrl));
  }

  /** A falsy value is never checked as an email or a URL. */
  lemma FalsySkipsFormatChecks(field: string, rules: Rules, v: Value, isUrl: string -> bool)
    requires !Truthy(v)
    ensures forall i :: 0 <= i < |FieldErrors(field, rules, v, isUrl)| ==>
              FieldErrors(field, rules, v, isUrl)[i].rule != EmailRule &&
              FieldErrors(field, rules, v, isUrl)[i].rule != UrlRule
  {
  }

  /**
   * A missing value under a `minLength` rule always reports the minimum length, whether or not the
   * field is required; it comes right after the required error when there is one.
   */
  lemma MissingValueBreaksMinLength(field: string, rules: Rules, isUrl: string -> bool)
    requires rules.minLength != 0
    ensures FieldError(field, MinLengthRule(rules.minLength)) in FieldErrors(field, rules, Undefined, isUrl)
    ensures FieldErrors(field, rules, Undefined, isUrl)[if rules.required then 1 else 0] == FieldError(field, MinLengthRule(rules.minLength))
  {
  }

  /** One rule of the loop body: when the rule is broken, push its message. */
  method Report(ghost found: seq<FieldError>, msgs: seq<string>, broken: bool, e: FieldError) returns (out: seq<string>)
    requires msgs == Messages(found)
    ensures out == Messages(found + Check(broken, e))
  {
    out := msgs;
    if broken {
      out := out + [Message(e)];
    }
    MessagesAppend(found, Check(broken, e));
  }

  /** The messages for one field, checked rule by rule. */
  method CheckField(field: string, rules: Rules, value: Value, isUrl: string -> bool) returns (msgs: seq<string>)
    ensures msgs == Messages(FieldErrors(field, rules, value, isUrl))
  {
    var required := rules.required && !IsRequired(value);
    var email := rules.email && Truthy(value) && !IsEmail(value.s);
    var url := rules.url && Truthy(value) && !isUrl(value.s);
    var short := rules.minLength != 0 && !MinLength(value, rules.minLength);
    var long := rules.maxLength != 0 && !MaxLength(value, rules.maxLength);
    ghost var e1 := Check(required, FieldError(field, RequiredRule));
    ghost var e2 := Check(email, FieldError(field, EmailRule));
    ghost var e3 := Check(url, FieldError(field, UrlRule));
    ghost var e4 := Check(short, FieldError(field, MinLengthRule(rules.minLength)));
    msgs := Report([], [], required, FieldError(field, RequiredRule));
    msgs := Report(e1, msgs, email, FieldError(field, EmailRule));
    msgs := Report(e1 + e2, msgs, url, FieldError(field, UrlRule));
    msgs := Report(e1 + e2 + e3, msgs, short, FieldError(field, MinLengthRule(rules.minLength)));
    msgs := Report(e1 + e2 + e3 + e4, msgs, long, FieldError(field, MaxLengthRule(rules.maxLength)));
    assert [] + e1 == e1;
  }

  /** `validateSchema(schema, data)`: a loop over the schema that pushes each broken rule's message. */
  method ValidateSchema(schema: seq<(string, Rules)>, data: map<string, Value>, isUrl: string -> bool)
    returns (isValid: bool, errors: seq<string>)
    ensures errors == Messages(SchemaErrors(schema, data, isUrl))
    ensures isValid <==> errors == []
    ensures isValid <==> forall k :: 0 <= k < |schema| ==> FieldErrors(schema[k].0, schema[k].1, ValueOf(data, schema[k].0), isUrl) == []
  {
    errors := [];
    ghost var parts := PerField(schema, data, isUrl);
    for i := 0 to |schema|
      invariant errors == Messages(Concat(parts[..i]))
    {
      var (field, rules) := schema[i];
      var msgs := CheckField(field, rules, ValueOf(data, field), isUrl);
      assert parts[i] == FieldErrors(field, rules, ValueOf(data, field), isUrl);
      assert parts[..i + 1][..i] == parts[..i];
      assert Concat(parts[..i + 1]) == Concat(parts[..i]) + parts[i];
      MessagesAppend(Concat(parts[..i]), parts[i]);
      errors := errors + msgs;
    }
    assert parts[..|schema|] == parts;
    isValid := |errors| == 0;
    NoErrorsIffFieldsPass(schema, data, isUrl);
  }
}
