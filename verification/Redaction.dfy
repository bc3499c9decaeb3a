/** Redaction of credentials and personal data in JSON-like payloads
    (backend/poi_admin/connections/crypto.py). Enqueue compares requests only after redaction, so
    what redaction identifies decides which requests count as the same one. */
module Redaction {
  import opened Text

  datatype Json =
    | Null
    | Bool(b: bool)
    | Num(n: int)
    | Str(s: string)
    | Arr(items: seq<Json>)
    | Obj(fields: map<string, Json>)

  const MARKER := "[REDACTED]"
  const NON_SECRET_KEYS := {"name", "display_name", "merchant_product_id", "status"}
  const CODE_FIELDS := {"auth_code", "codes", "consume_code", "coupon_code", "voucher_code"}
  const MARKERS := ["secret", "token", "password", "authorization", "openid", "phone", "voucher"]

  function Normalized(key: string): string {
    seq(|key|, i requires 0 <= i < |key| => if key[i] == '-' then '_' else FoldChar(key[i]))
  }

  predicate Contains(s: string, sub: string) {
    exists i | 0 <= i <= |s| :: sub <= s[i..]
  }

  predicate IsSensitive(key: string) {
    var k := Normalized(key);
    k !in NON_SECRET_KEYS &&
    (k in CODE_FIELDS || exists i | 0 <= i < |MARKERS| :: Contains(k, MARKERS[i]))
  }

  /** Credentials and personal data are recognised by what their names contain, upper and lower case and
      dashes aside, or by one of five code names; four names are never secret. */
  lemma SensitiveNamesAre(key: string)
    ensures var k := Normalized(key);
            IsSensitive(key) <==>
              && k !in {"name", "display_name", "merchant_product_id", "status"}
              && (|| k in {"auth_code", "codes", "consume_code", "coupon_code", "voucher_code"}
                  || Contains(k, "secret") || Contains(k, "token") || Contains(k, "password")
                  || Contains(k, "authorization") || Contains(k, "openid") || Contains(k, "phone")
                  || Contains(k, "voucher"))
    ensures |Normalized(key)| == |key|
    ensures forall i | 0 <= i < |key| :: Normalized(key)[i] == if key[i] == '-' then '_' else FoldChar(key[i])
  {
    var k := Normalized(key);
    assert MARKERS[0] == "secret" && MARKERS[1] == "token" && MARKERS[2] == "password"
           && MARKERS[3] == "authorization" && MARKERS[4] == "openid" && MARKERS[5] == "phone"
           && MARKERS[6] == "voucher";
  }

  lemma ContainsIs(s: string, sub: string)
    ensures Contains(s, sub) <==> exists a, b :: s == a + sub + b
  {
    if Contains(s, sub) {
      var i :| 0 <= i <= |s| && sub <= s[i..];
      assert s == s[..i] + sub + s[i + |sub|..];
    }
    if a, b :| s == a + sub + b {
      assert s[|a|..] == sub + b;
    }
  }

  function Redact(v: Json): Json {
    match v
    case Arr(items) => Arr(seq(|items|, i requires 0 <= i < |items| => Redact(items[i])))
    case Obj(fields) =>
      Obj(map k | k in fields :: if IsSensitive(k) then Str(MARKER) else Redact(fields[k]))
    case _ => v
  }

  /** Every sensitive field, at any depth, holds the marker. */
  predicate Clean(v: Json) {
    match v
    case Arr(items) => forall i | 0 <= i < |items| :: Clean(items[i])
    case Obj(fields) =>
      forall k | k in fields :: if IsSensitive(k) then fields[k] == Str(MARKER) else Clean(fields[k])
    case _ => true
  }

  /** The two documents differ at most in the values of sensitive fields. */
  predicate AgreeOutsideSecrets(x: Json, y: Json) {
    match (x, y)
    case (Arr(xs), Arr(ys)) =>
      |xs| == |ys| && forall i | 0 <= i < |xs| :: AgreeOutsideSecrets(xs[i], ys[i])
    case (Obj(xf), Obj(yf)) =>
      xf.Keys == yf.Keys &&
      forall k | k in xf :: IsSensitive(k) || AgreeOutsideSecrets(xf[k], yf[k])
    case _ => x == y
  }

  /** A redacted object has the same fields; secret ones hold the marker, and the others what redaction
      leaves of them. Lists are redacted item by item, and anything else is kept. */
  lemma RedactIs(v: Json)
    ensures v.Obj? ==>
              Redact(v).Obj? && Redact(v).fields.Keys == v.fields.Keys
              && forall k | k in v.fields ::
                   Redact(v).fields[k] == if IsSensitive(k) then Str("[REDACTED]") else Redact(v.fields[k])
    ensures v.Arr? ==>
              Redact(v).Arr? && |Redact(v).items| == |v.items|
              && forall i | 0 <= i < |v.items| :: Redact(v).items[i] == Redact(v.items[i])
    ensures !v.Obj? && !v.Arr? ==> Redact(v) == v
  {
  }

  /** Redaction leaves exactly the clean documents alone. */
  lemma {:induction false} RedactFixesExactlyCleanDocuments(v: Json)
    ensures Redact(v) == v <==> Clean(v)
  {
    match v
    case Arr(items) =>
      forall i | 0 <= i < |items| ensures Redact(items[i]) == items[i] <==> Clean(items[i]) {
        RedactFixesExactlyCleanDocuments(items[i]);
      }
      assert Redact(v) == v ==> forall i | 0 <= i < |items| :: Redact(v).items[i] == items[i];
      if Clean(v) { assert Redact(v).items == items; }
    case Obj(fields) =>
      forall k | k in fields ensures Redact(fields[k]) == fields[k] <==> Clean(fields[k]) {
        RedactFixesExactlyCleanDocuments(fields[k]);
      }
      assert Redact(v) == v ==> forall k | k in fields :: Redact(v).fields[k] == fields[k];
      if Clean(v) { assert Redact(v).fields == fields; }
    case _ =>
  }

  lemma {:induction false} RedactIsClean(v: Json)
    ensures Clean(Redact(v))
  {
    match v
    case Arr(items) =>
      forall i | 0 <= i < |items| ensures Clean(Redact(items[i])) { RedactIsClean(items[i]); }
    case Obj(fields) =>
      forall k | k in fields ensures Clean(Redact(fields[k])) { RedactIsClean(fields[k]); }
    case _ =>
  }

  lemma RedactIsIdempotent(v: Json)
    ensures Redact(Redact(v)) == Redact(v)
  {
    RedactIsClean(v);
    RedactFixesExactlyCleanDocuments(Redact(v));
  }

  /** Two documents become equal by redaction exactly when they differ only in secrets: nothing
      under a sensitive key leaks, and nothing else is lost. */
  lemma {:induction false} RedactIdentifiesExactlySecrets(x: Json, y: Json)
    ensures Redact(x) == Redact(y) <==> AgreeOutsideSecrets(x, y)
  {
    match (x, y)
    case (Arr(xs), Arr(ys)) =>
      forall i | 0 <= i < |xs| && i < |ys|
        ensures Redact(xs[i]) == Redact(ys[i]) <==> AgreeOutsideSecrets(xs[i], ys[i])
      {
        RedactIdentifiesExactlySecrets(xs[i], ys[i]);
      }
      if Redact(x) == Redact(y) {
        assert |Redact(x).items| == |xs| && |Redact(y).items| == |ys|;
        forall i | 0 <= i < |xs| ensures AgreeOutsideSecrets(xs[i], ys[i]) {
          assert Redact(x).items[i] == Redact(y).items[i];
        }
      }
      if AgreeOutsideSecrets(x, y) { assert Redact(x).items == Redact(y).items; }
    case (Obj(xf), Obj(yf)) =>
      forall k | k in xf && k in yf
        ensures Redact(xf[k]) == Redact(yf[k]) <==> AgreeOutsideSecrets(xf[k], yf[k])
      {
        RedactIdentifiesExactlySecrets(xf[k], yf[k]);
      }
      if Redact(x) == Redact(y) {
        assert Redact(x).fields.Keys == xf.Keys && Redact(y).fields.Keys == yf.Keys;
        forall k | k in xf ensures IsSensitive(k) || AgreeOutsideSecrets(xf[k], yf[k]) {
          assert Redact(x).fields[k] == Redact(y).fields[k];
        }
      }
      if AgreeOutsideSecrets(x, y) { assert Redact(x).fields == Redact(y).fields; }
    case _ =>
  }
}
