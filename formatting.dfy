/**
 * Python's `str.format` with keyword arguments, as the query and prompt templates use it:
 * `{name}` is replaced by the argument's text as it is, `{{` and `}}` stand for single braces.
 * Conversions (`!r`) and format specs (`:>10`) do not occur in the templates and are not modelled.
 */
module Formatting {
  import opened Wrappers

  datatype FormatError =
    | MissingArgument(name: string)  // KeyError
    | UnmatchedOpen                  // "expected '}' before end of string"
    | BraceInFieldName               // "unexpected '{' in field name"
    | SingleClose                    // "Single '}' encountered in format string"

  predicate NoBraces(s: string) {
    forall i :: 0 <= i < |s| ==> s[i] != '{' && s[i] != '}'
  }

  /** A character a template copies as it is. */
  type Plain = c: char | c != '{' && c != '}'

  lemma PlainNoBraces(s: seq<Plain>)
    ensures NoBraces(s)
  {
  }


  /** Index of the first `}` in `s`, or `|s|` when there is none. */
  function CloseIndex(s: string): (k: nat)
    ensures k <= |s|
    ensures k < |s| ==> s[k] == '}'
    ensures forall i :: 0 <= i < k ==> s[i] != '}'
  {
    if s == [] then 0 else if s[0] == '}' then 0 else 1 + CloseIndex(s[1..])
  }

  function PrependTo(p: string, r: Result<string, FormatError>): Result<string, FormatError> {
    if r.Success? then Success(p + r.value) else r
  }

  /** `template.format(**args)` */
  function Format(template: string, args: map<string, string>): Result<string, FormatError>
    decreases |template|
  {
    if template == [] then Success([])
    else if template[0] == '{' then
      if |template| >= 2 && template[1] == '{' then PrependTo("{", Format(template[2..], args))
      else
        var k := CloseIndex(template[1..]);
        if k == |template[1..]| then Failure(UnmatchedOpen)
        else
          var name := template[1..1 + k];
          if exists i :: 0 <= i < |name| && name[i] == '{' then Failure(BraceInFieldName)
          else if name !in args then Failure(MissingArgument(name))
          else PrependTo(args[name], Format(template[2 + k..], args))
    else if template[0] == '}' then
      if |template| >= 2 && template[1] == '}' then PrependTo("}", Format(template[2..], args))
      else Failure(SingleClose)
    else PrependTo([template[0]], Format(template[1..], args))
  }

  /** Text without braces is copied as it is. */
  lemma {:induction false} FormatLiteral(lit: string, rest: string, args: map<string, string>)
    requires NoBraces(lit)
    ensures Format(lit + rest, args) == PrependTo(lit, Format(rest, args))
    decreases |lit|
  {
    if lit == [] {
      assert lit + rest == rest;
      if Format(rest, args).Success? {
        assert lit + Format(rest, args).value == Format(rest, args).value;
      }
    } else {
      assert (lit + rest)[0] == lit[0];
      assert (lit + rest)[1..] == lit[1..] + rest;
      FormatLiteral(lit[1..], rest, args);
      PrependAssoc([lit[0]], lit[1..], Format(rest, args));
      assert [lit[0]] + lit[1..] == lit;
    }
  }

  /** `{{` and `}}` produce one brace each. */
  lemma FormatEscapes(rest: string, args: map<string, string>)
    ensures Format("{{" + rest, args) == PrependTo("{", Format(rest, args))
    ensures Format("}}" + rest, args) == PrependTo("}", Format(rest, args))
  {
    assert ("{{" + rest)[2..] == rest;
    assert ("}}" + rest)[2..] == rest;
  }

  /** A field is replaced by its argument verbatim, without any escaping. */
  lemma FormatField(name: string, rest: string, args: map<string, string>)
    requires NoBraces(name) && name in args
    ensures Format("{" + name + "}" + rest, args) == PrependTo(args[name], Format(rest, args))
  {
    var t := "{" + name + "}" + rest;
    assert t[1..] == name + "}" + rest;
    CloseIndexAfter(name, rest);
    assert t[1..1 + |name|] == name;
    assert t[2 + |name|..] == rest;
  }

  lemma {:induction false} CloseIndexAfter(name: string, rest: string)
    requires NoBraces(name)
    ensures CloseIndex(name + "}" + rest) == |name|
    decreases |name|
  {
    if name != [] {
      assert (name + "}" + rest)[1..] == name[1..] + "}" + rest;
      CloseIndexAfter(name[1..], rest);
    }
  }

  /** `{{{name}}}` puts the argument between literal braces. */
  lemma FormatBracedField(name: string, rest: string, args: map<string, string>)
    requires NoBraces(name) && name in args
    ensures Format("{{{" + name + "}}}" + rest, args) == PrependTo("{" + args[name] + "}", Format(rest, args))
  {
    assert "{{{" + name + "}}}" + rest == "{{" + ("{" + name + "}" + ("}}" + rest));
    FormatEscapes("{" + name + "}" + ("}}" + rest), args);
    FormatField(name, "}}" + rest, args);
    FormatEscapes(rest, args);
    PrependAssoc(args[name], "}", Format(rest, args));
    PrependAssoc("{", args[name] + "}", Format(rest, args));
    assert "{" + (args[name] + "}") == "{" + args[name] + "}";
  }

  /** Plain text followed by a field in literal braces. */
  lemma FormatLiteralThenField(lit: seq<Plain>, name: string, rest: string, args: map<string, string>)
    requires NoBraces(name) && name in args
    ensures Format(lit + "{{{" + name + "}}}" + rest, args) == PrependTo(lit + "{" + args[name] + "}", Format(rest, args))
  {
    PlainNoBraces(lit);
    assert lit + "{{{" + name + "}}}" + rest == lit + ("{{{" + name + "}}}" + rest);
    FormatLiteral(lit, "{{{" + name + "}}}" + rest, args);
    FormatBracedField(name, rest, args);
    PrependAssoc(lit, "{" + args[name] + "}", Format(rest, args));
    assert lit + ("{" + args[name] + "}") == lit + "{" + args[name] + "}";
  }

  /** Plain text, a field in literal braces, and plain text again. */
  lemma FormatLastField(mid: seq<Plain>, name: string, post: seq<Plain>, args: map<string, string>)
    requires NoBraces(name) && name in args
    ensures Format(mid + "{{{" + name + "}}}" + post, args) == Success(mid + "{" + args[name] + "}" + post)
  {
    PlainNoBraces(post);
    FormatLiteral(post, [], args);
    assert post + [] == post;
    assert Format([], args) == Success([]);
    FormatLiteralThenField(mid, name, post, args);
  }

  /**
   * A template of plain text with two fields in literal braces formats to the same text with
   * the two arguments inserted verbatim.
   */
  lemma FormatTwoBracedFields(
    pre: seq<Plain>, first: string, mid: seq<Plain>, second: string, post: seq<Plain>,
    args: map<string, string>)
    requires NoBraces(first) && first in args && NoBraces(second) && second in args
    ensures Format(pre + "{{{" + first + "}}}" + mid + "{{{" + second + "}}}" + post, args)
      == Success(pre + "{" + args[first] + "}" + mid + "{" + args[second] + "}" + post)
  {
    var tail := mid + "{{{" + second + "}}}" + post;
    var tailOut := mid + "{" + args[second] + "}" + post;
    FormatLastField(mid, second, post, args);
    FormatLiteralThenField(pre, first, tail, args);
    assert pre + "{{{" + first + "}}}" + mid + "{{{" + second + "}}}" + post == pre + "{{{" + first + "}}}" + tail;
    assert pre + "{" + args[first] + "}" + mid + "{" + args[second] + "}" + post
      == pre + "{" + args[first] + "}" + tailOut;
    assert Format(tail, args) == Success(tailOut);
    assert Format(pre + "{{{" + first + "}}}" + tail, args) == Success(pre + "{" + args[first] + "}" + tailOut);
  }

  /** Plain text on its own formats to itself. */
  lemma FormatPlain(lit: seq<Plain>, args: map<string, string>)
    ensures Format(lit, args) == Success(lit)
  {
    PlainNoBraces(lit);
    FormatLiteral(lit, [], args);
    assert lit + [] == lit;
    assert Format([], args) == Success([]);
  }

  /** Plain text followed by a field: the text, then the argument, then whatever the rest gives. */
  lemma FormatPlainThenField(lit: seq<Plain>, name: string, rest: string, args: map<string, string>)
    requires NoBraces(name) && name in args
    ensures Format(rest, args).Success? ==>
      Format(lit + ("{" + name + "}" + rest), args) == Success(lit + (args[name] + Format(rest, args).value))
    ensures Format(rest, args).Failure? ==> Format(lit + ("{" + name + "}" + rest), args) == Format(rest, args)
  {
    PlainNoBraces(lit);
    FormatLiteral(lit, "{" + name + "}" + rest, args);
    FormatField(name, rest, args);
    if Format(rest, args).Success? {
      assert (lit + args[name]) + Format(rest, args).value == lit + (args[name] + Format(rest, args).value);
    }
  }

  /** Plain text, a field, plain text, a field, then a rest that formats. */
  lemma FormatTwoFieldsThen(
    a: seq<Plain>, first: string, b: seq<Plain>, second: string, rest: string, args: map<string, string>)
    requires NoBraces(first) && first in args && NoBraces(second) && second in args
    requires Format(rest, args).Success?
    ensures Format(a + ("{" + first + "}" + (b + ("{" + second + "}" + rest))), args)
      == Success(a + (args[first] + (b + (args[second] + Format(rest, args).value))))
  {
    FormatPlainThenField(b, second, rest, args);
    FormatPlainThenField(a, first, b + ("{" + second + "}" + rest), args);
  }

  /** Three fields, each between plain texts, are each replaced by their argument. */
  lemma FormatThreeFields(
    a: seq<Plain>, first: string, b: seq<Plain>, second: string, c: seq<Plain>, third: string, d: seq<Plain>,
    args: map<string, string>)
    requires NoBraces(first) && first in args && NoBraces(second) && second in args
    requires NoBraces(third) && third in args
    ensures Format(a + ("{" + first + "}" + (b + ("{" + second + "}" + (c + ("{" + third + "}" + d))))), args)
      == Success(a + (args[first] + (b + (args[second] + (c + (args[third] + d))))))
  {
    FormatPlain(d, args);
    FormatPlainThenField(c, third, d, args);
    FormatTwoFieldsThen(a, first, b, second, c + ("{" + third + "}" + d), args);
  }

  lemma PrependAssoc(a: string, b: string, r: Result<string, FormatError>)
    ensures PrependTo(a, PrependTo(b, r)) == PrependTo(a + b, r)
  {
    if r.Success? {
      assert a + (b + r.value) == (a + b) + r.value;
    }
  }
}
