/** `template.format(**kwargs)` of Python 2, for templates whose replacement
    fields are plain keyword names: literal text is copied, `{{` and `}}` stand
    for single braces, and `{name}` is replaced by the keyword argument `name`. */
module PyFormat {
  import opened Exceptions
  import opened PyStr

  /** A field name Python reads as a positional index: empty (automatic
      numbering) or all digits. No positional arguments are ever passed here. */
  predicate Positional(name: string) {
    forall i :: 0 <= i < |name| ==> '0' <= name[i] <= '9'
  }

  /** A name that can stand between braces as a keyword field. */
  predicate KeywordName(name: string) {
    && !Positional(name)
    && '{' !in name
    && '}' !in name
  }

  /** `p` followed by the formatted text, or the exception formatting raised. */
  function Prepend(p: string, r: Result<string>): (q: Result<string>)
    ensures q.Ok? <==> r.Ok?
    ensures r.Ok? ==> q.value == p + r.value
    ensures r.Raised? ==> q == r
  {
    match r
    case Ok(v) => Ok(p + v)
    case Raised(e) => Raised(e)
  }

  /** `t.format(**kwargs)`. A lone `}` or an unclosed `{` raises ValueError, a
      positional field IndexError (no positional arguments are given), and a
      keyword missing from `kwargs` KeyError. */
  function Format(t: string, kwargs: map<string, string>): (r: Result<string>)
    decreases |t|
  {
    if |t| == 0 then Ok([])
    else if t[0] == '{' && |t| > 1 && t[1] == '{' then Prepend("{", Format(t[2..], kwargs))
    else if t[0] == '}' && |t| > 1 && t[1] == '}' then Prepend("}", Format(t[2..], kwargs))
    else if t[0] == '}' then Raised(ValueError)
    else if t[0] == '{' then
      var k := FirstIndex(t[1..], '}');
      if k == |t| - 1 then Raised(ValueError)
      else
        var name := t[1..k + 1];
        if Positional(name) then Raised(IndexError)
        else if name !in kwargs then Raised(KeyError(name))
        else Prepend(kwargs[name], Format(t[k + 2..], kwargs))
    else
      assert t == [t[0]] + t[1..];
      Prepend([t[0]], Format(t[1..], kwargs))
  }

  /** Text without braces formats to itself. */
  lemma {:induction false} FormatLiteral(t: string, kwargs: map<string, string>)
    requires '{' !in t && '}' !in t
    ensures Format(t, kwargs) == Ok(t)
    decreases |t|
  {
    if |t| > 0 {
      assert t[0] in t;
      assert forall c :: c in t[1..] ==> c in t;
      FormatLiteral(t[1..], kwargs);
      assert [t[0]] + t[1..] == t;
    }
  }

  lemma PrependPrepend(x: string, y: string, r: Result<string>)
    ensures Prepend(x, Prepend(y, r)) == Prepend(x + y, r)
  {
    if r.Ok? {
      assert x + (y + r.value) == (x + y) + r.value;
    }
  }

  /** A prefix that formats on its own formats the same way in front of
      anything else: no replacement field or escaped brace straddles the join. */
  lemma {:induction false} FormatAppend(a: string, b: string, kwargs: map<string, string>)
    requires Format(a, kwargs).Ok?
    ensures Format(a + b, kwargs) == Prepend(Format(a, kwargs).value, Format(b, kwargs))
    decreases |a|, 1
  {
    var t := a + b;
    if |a| == 0 {
      assert t == b;
      if Format(b, kwargs).Ok? {
        assert [] + Format(b, kwargs).value == Format(b, kwargs).value;
      }
    } else if a[0] == '{' && |a| > 1 && a[1] == '{' {
      assert t[2..] == a[2..] + b;
      FormatAppend(a[2..], b, kwargs);
      PrependPrepend("{", Format(a[2..], kwargs).value, Format(b, kwargs));
    } else if a[0] == '}' && |a| > 1 && a[1] == '}' {
      assert t[2..] == a[2..] + b;
      FormatAppend(a[2..], b, kwargs);
      PrependPrepend("}", Format(a[2..], kwargs).value, Format(b, kwargs));
    } else if a[0] == '{' {
      FormatAppendField(a, b, kwargs);
    } else {
      assert t[1..] == a[1..] + b;
      FormatAppend(a[1..], b, kwargs);
      PrependPrepend([a[0]], Format(a[1..], kwargs).value, Format(b, kwargs));
    }
  }

  /** The case of `FormatAppend` where `a` opens with a replacement field. */
  lemma {:induction false} FormatAppendField(a: string, b: string, kwargs: map<string, string>)
    requires Format(a, kwargs).Ok?
    requires |a| > 0 && a[0] == '{' && !(|a| > 1 && a[1] == '{')
    ensures Format(a + b, kwargs) == Prepend(Format(a, kwargs).value, Format(b, kwargs))
    decreases |a|, 0
  {
    var t := a + b;
    var k := FieldOk(a, kwargs);
    var name := a[1..k + 1];
    FieldAt(a, k, kwargs);
    FieldThenMore(a, b, k);
    FieldAt(t, k, kwargs);
    FormatAppend(a[k + 2..], b, kwargs);
    PrependPrepend(kwargs[name], Format(a[k + 2..], kwargs).value, Format(b, kwargs));
  }

  /** A field closed inside `a` is closed at the same place in `a + b`. */
  lemma FieldThenMore(a: string, b: string, k: nat)
    requires |a| > 1 && k < |a| - 1 && k == FirstIndex(a[1..], '}')
    ensures FirstIndex((a + b)[1..], '}') == k
    ensures (a + b)[1..k + 1] == a[1..k + 1]
    ensures (a + b)[k + 2..] == a[k + 2..] + b
  {
    var t := a + b;
    assert a[1..] + b == t[1..];
    assert a[1..][..k] == t[1..][..k];
    FirstIndexIs(t[1..], '}', k);
  }

  /** Text that opens with a replacement field and formats: the field is a
      keyword with an argument, closed by the first `}` at `k + 1`. */
  lemma FieldOk(a: string, kwargs: map<string, string>) returns (k: nat)
    requires Format(a, kwargs).Ok?
    requires |a| > 0 && a[0] == '{' && !(|a| > 1 && a[1] == '{')
    ensures |a| > 1 && k < |a| - 1 && k == FirstIndex(a[1..], '}')
    ensures !Positional(a[1..k + 1]) && a[1..k + 1] in kwargs
    ensures Format(a[k + 2..], kwargs).Ok?
  {
    k := FirstIndex(a[1..], '}');
  }

  /** Formatting text that opens with a keyword field closed at `k + 1`. */
  lemma FieldAt(t: string, k: nat, kwargs: map<string, string>)
    requires |t| > 1 && t[0] == '{' && t[1] != '{'
    requires k < |t| - 1 && k == FirstIndex(t[1..], '}')
    requires !Positional(t[1..k + 1])
    ensures t[1..k + 1] !in kwargs ==> Format(t, kwargs) == Raised(KeyError(t[1..k + 1]))
    ensures t[1..k + 1] in kwargs ==>
              Format(t, kwargs) == Prepend(kwargs[t[1..k + 1]], Format(t[k + 2..], kwargs))
  {
  }

  /** A keyword field is replaced by its argument. */
  lemma FormatField(name: string, kwargs: map<string, string>)
    requires KeywordName(name)
    requires name in kwargs
    ensures Format("{" + name + "}", kwargs) == Ok(kwargs[name])
  {
    FieldText(name);
    FieldAt("{" + name + "}", |name|, kwargs);
    assert kwargs[name] + [] == kwargs[name];
  }

  /** A keyword field with no matching argument raises KeyError. */
  lemma FormatMissingField(name: string, kwargs: map<string, string>)
    requires KeywordName(name)
    requires name !in kwargs
    ensures Format("{" + name + "}", kwargs) == Raised(KeyError(name))
  {
    FieldText(name);
    FieldAt("{" + name + "}", |name|, kwargs);
  }

  /** The pieces of a lone keyword field. */
  lemma FieldText(name: string)
    requires KeywordName(name)
    ensures var t := "{" + name + "}";
      && |t| > 1 && t[0] == '{' && t[1] != '{'
      && FirstIndex(t[1..], '}') == |name|
      && t[1..|name| + 1] == name
      && t[|name| + 2..] == []
  {
    var t := "{" + name + "}";
    assert t[1..] == name + "}";
    FirstIndexAfter(name, '}', []);
    assert name + "}" == name + ['}'] + [];
    assert t[1] == name[0];
    assert t[1..|name| + 1] == name;
  }
}
