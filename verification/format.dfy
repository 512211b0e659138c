/**
 * The subset of Go's `fmt` formatting that the harness's error messages use:
 * the verbs `%v`, `%s` and `%d` applied to strings, ints, string slices and
 * header maps, `%%`, and the `%!verb(MISSING)` / `%!(NOVERB)` markers.
 */
module Format {
  import opened Text
  import StringOrder

  /** The dynamic values handed to `fmt.Errorf` / `reflect.DeepEqual`. */
  datatype Value =
    | Str(s: string)
    | Int(i: int)
    | StrList(items: seq<string>)
    | HeaderMap(m: map<string, seq<string>>)

  /** A string operand printed under `verb`. */
  function StrOperand(verb: char, s: string): string
  {
    if verb == 'd' then "%!d(string=" + s + ")" else s
  }

  /** A string slice printed under `verb`: the verb applies to each element. */
  function ListOperand(verb: char, items: seq<string>): string
  {
    "[" + Join(seq(|items|, k requires 0 <= k < |items| => StrOperand(verb, items[k])), " ") + "]"
  }

  /** One operand printed under verb `verb`; maps print with their keys sorted. */
  function Operand(verb: char, v: Value): string
  {
    match v
    case Str(s) => StrOperand(verb, s)
    case Int(i) =>
      if verb == 's' then "%!s(int=" + IntToString(i) + ")" else IntToString(i)
    case StrList(items) => ListOperand(verb, items)
    case HeaderMap(m) =>
      var keys := StringOrder.Sorted(m.Keys);
      "map[" + Join(seq(|keys|, k requires 0 <= k < |keys| =>
                    StrOperand(verb, keys[k]) + ":" + ListOperand(verb, m[keys[k]])), " ") + "]"
  }

  /** `fmt.Sprintf(template, args...)` for templates without flags or widths. */
  function Sprintf(template: string, args: seq<Value>): string
    decreases |template|
  {
    if |template| == 0 then ""
    else if template[0] != '%' then [template[0]] + Sprintf(template[1..], args)
    else if |template| == 1 then "%!(NOVERB)"
    else if template[1] == '%' then "%" + Sprintf(template[2..], args)
    else if |args| == 0 then "%!" + [template[1]] + "(MISSING)" + Sprintf(template[2..], args)
    else Operand(template[1], args[0]) + Sprintf(template[2..], args[1..])
  }

  /** Number of operand-consuming verbs in a template. */
  function VerbCount(template: string): nat
    decreases |template|
  {
    if |template| < 2 then 0
    else if template[0] != '%' then VerbCount(template[1..])
    else if template[1] == '%' then VerbCount(template[2..])
    else 1 + VerbCount(template[2..])
  }

  /** Text with no `%` is printed verbatim, whatever the operands. */
  lemma {:induction false} SprintfPlain(template: string, args: seq<Value>)
    requires forall i :: 0 <= i < |template| ==> template[i] != '%'
    decreases |template|
    ensures Sprintf(template, args) == template
  {
    if |template| > 0 {
      SprintfPlain(template[1..], args);
    }
  }

  /** A plain prefix is copied and the rest is formatted with the same operands. */
  lemma {:induction false} SprintfPlainPrefix(p: string, t: string, args: seq<Value>)
    requires forall i :: 0 <= i < |p| ==> p[i] != '%'
    decreases |p|
    ensures Sprintf(p + t, args) == p + Sprintf(t, args)
  {
    if |p| > 0 {
      assert (p + t)[1..] == p[1..] + t;
      SprintfPlainPrefix(p[1..], t, args);
    } else {
      assert p + t == t;
    }
  }

  /** Each verb consumes the next operand in order: a `%v` first prints the first operand. */
  lemma SprintfVerbFirst(t: string, a: Value, rest: seq<Value>)
    ensures Sprintf("%v" + t, [a] + rest) == Operand('v', a) + Sprintf(t, rest)
  {
    var tt := "%v" + t;
    assert tt[0] == '%' && tt[1] == 'v' && tt[2..] == t;
    assert ([a] + rest)[1..] == rest;
  }
}
