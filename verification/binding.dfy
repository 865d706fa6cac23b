/**
 * Request binding as gin does it: decode the request into a struct, then run
 * the validator over the `binding` tags of its fields in declaration order.
 * Each field reports only the first rule it breaks; every failing field is
 * reported, in order.
 */
module Binding {
  import opened Wrappers
  import opened Errors
  import opened Decimal

  /** One rule of a field's tag, and whether the field's value satisfies it. */
  datatype Check = Check(tag: string, param: string, holds: bool)

  /** Every rule holds. */
  predicate AllHold(checks: seq<Check>) {
    |checks| == 0 || (checks[0].holds && AllHold(checks[1..]))
  }

  /** No field reports an error. */
  predicate NoneFailed(failures: seq<Option<FieldError>>) {
    |failures| == 0 || (failures[0].None? && NoneFailed(failures[1..]))
  }

  /** Rule `i` is the first rule the checks break. */
  predicate FirstBroken(checks: seq<Check>, i: int) {
    0 <= i < |checks| && !checks[i].holds && forall j :: 0 <= j < i ==> checks[j].holds
  }

  /** The field error reporting rule `i` of a field. */
  function BrokenRule(structName: string, field: string, checks: seq<Check>, i: int): FieldError
    requires 0 <= i < |checks|
  {
    FieldError(structName + "." + field, field, checks[i].tag, checks[i].param)
  }

  /** The first rule the field breaks, as the field error the validator reports. */
  function FieldFailure(structName: string, field: string, checks: seq<Check>): (r: Option<FieldError>)
    ensures r.None? <==> forall i :: 0 <= i < |checks| ==> checks[i].holds
    ensures r.None? <==> AllHold(checks)
    ensures |checks| > 0 && !checks[0].holds ==> r == Some(BrokenRule(structName, field, checks, 0))
    ensures r.Some? ==> exists i :: FirstBroken(checks, i) && r.value == BrokenRule(structName, field, checks, i)
  {
    if |checks| == 0 then None
    else if !checks[0].holds then
      assert FirstBroken(checks, 0);
      Some(BrokenRule(structName, field, checks, 0))
    else
      var r := FieldFailure(structName, field, checks[1..]);
      assert r.Some? ==> exists i :: FirstBroken(checks, i) && r.value == BrokenRule(structName, field, checks, i) by {
        if r.Some? {
          var i :| FirstBroken(checks[1..], i) && r.value == BrokenRule(structName, field, checks[1..], i);
          assert checks[i + 1] == checks[1..][i];
          assert forall j :: 0 <= j < i + 1 ==> checks[j].holds by {
            forall j | 0 <= j < i + 1 ensures checks[j].holds {
              if j > 0 { assert checks[j] == checks[1..][j - 1]; }
            }
          }
          assert FirstBroken(checks, i + 1);
        }
      }
      r
  }

  /** The reported field errors, in field order. */
  function Collect(fs: seq<Option<FieldError>>): (r: seq<FieldError>)
    ensures |r| <= |fs|
    ensures |r| == 0 <==> forall i :: 0 <= i < |fs| ==> fs[i].None?
    ensures |r| == 0 <==> NoneFailed(fs)
    ensures forall e :: e in r <==> Some(e) in fs
  {
    if |fs| == 0 then []
    else
      var rest := Collect(fs[1..]);
      assert forall e :: Some(e) in fs <==> Some(e) == fs[0] || Some(e) in fs[1..] by {
        assert fs == [fs[0]] + fs[1..];
      }
      match fs[0]
      case Some(f) => [f] + rest
      case None => rest
  }

  /** The reported errors of two fields are the failed ones among them, in order. */
  lemma CollectPair(a: Option<FieldError>, b: Option<FieldError>)
    ensures Collect([a, b]) == (if a.Some? then [a.value] else []) + (if b.Some? then [b.value] else [])
  {
    assert [a, b][1..] == [b];
    assert [b][1..] == [];
  }

  /** The validator's verdict on a decoded value: the value, or the field errors it reports. */
  function Validate<T>(value: T, failures: seq<Option<FieldError>>): (r: Result<T, Err>)
    ensures r.Ok? <==> forall i :: 0 <= i < |failures| ==> failures[i].None?
    ensures r.Ok? <==> NoneFailed(failures)
    ensures r.Ok? ==> r.value == value
    ensures r.Err? ==> r.error == Validation(Collect(failures)) && |Collect(failures)| > 0
  {
    var fs := Collect(failures);
    if |fs| == 0 then Ok(value) else Err(Validation(fs))
  }

  /** The `required` rule: the value is not its type's zero value. */
  function Required(nonZero: bool): Check {
    Check("required", "", nonZero)
  }

  /** The `alphanum` rule: only ASCII letters and digits. */
  predicate IsAlphanum(s: string) {
    forall i :: 0 <= i < |s| ==>
      ('a' <= s[i] <= 'z') || ('A' <= s[i] <= 'Z') || ('0' <= s[i] <= '9')
  }

  /**
   * A form, query or URI value bound to an integer field of `bits` bits: an
   * absent value leaves the zero value, an empty one reads as "0", anything
   * else goes through `strconv.ParseInt`.
   */
  function BindInt(value: Option<string>, bits: nat): (r: Result<int, Err>)
    requires 1 <= bits <= 64
    ensures value.None? ==> r == Ok(0)
    ensures value == Some("") ==> r == Ok(0)
    ensures value.Some? && value.value != "" ==> r == ParseInt(value.value, bits)
  {
    match value
    case None => Ok(0)
    case Some(s) => if s == "" then ParseInt("0", bits) else ParseInt(s, bits)
  }

  /** A bound integer field reads back the decimal text of every value of its width. */
  lemma {:induction false} BindIntRoundTrip(n: int)
    requires IsInt64(n)
    ensures BindInt(Some(Itoa(n)), 64) == Ok(n)
  {
    ItoaParseRoundTrip(n);
  }
}
