/** The systemd `EnvironmentFile=` rendering of resolved parameters (see
    systemd.exec(5)): one line `NAME='VALUE'` per parameter, in input order,
    with no escaping. `Parse` is the inverse the rendering is checked against. */
module EnvFile {
  import opened Optional
  import opened Ssm
  import opened Text
  import opened FileStore
  import opened Errors

  /** The parameter carries both a name and a value (rendering unwraps both). */
  predicate Complete(p: Parameter) {
    p.name.Some? && p.value.Some?
  }

  predicate AllComplete(ps: seq<Parameter>) {
    forall i :: 0 <= i < |ps| ==> Complete(ps[i])
  }

  /** A parameter whose line reads back unambiguously: no newline in its name or
      value, and no `=` in its name. */
  predicate Plain(p: Parameter)
    requires Complete(p)
  {
    '\n' !in p.name.value && '\n' !in p.value.value && '=' !in p.name.value
  }

  predicate AllPlain(ps: seq<Parameter>)
    requires AllComplete(ps)
  {
    forall i :: 0 <= i < |ps| ==> Plain(ps[i])
  }

  /** The assignment `NAME='VALUE'` of one parameter, name and value verbatim. */
  function Assignment(p: Parameter): (a: string)
    requires Complete(p)
    ensures |a| == |p.name.value| + |p.value.value| + 3
    ensures a[..|p.name.value|] == p.name.value && a[|p.name.value|] == '='
    ensures a[|p.name.value| + 1..] == "'" + p.value.value + "'"
  {
    p.name.value + "='" + p.value.value + "'"
  }

  /** The line of one parameter: its assignment and a newline. */
  function Line(p: Parameter): (line: string)
    requires Complete(p)
    ensures |line| == |p.name.value| + |p.value.value| + 4
    ensures line[..|line| - 1] == Assignment(p) && line[|line| - 1] == '\n'
  {
    Assignment(p) + "\n"
  }

  /** The whole file: every parameter's line, in input order. */
  function Render(ps: seq<Parameter>): (text: string)
    requires AllComplete(ps)
    ensures |text| >= 4 * |ps|
    ensures text == [] <==> ps == []
  {
    if ps == [] then [] else Line(ps[0]) + Render(ps[1..])
  }

  /** Rendering distributes over concatenation: the file of `a + b` is the file
      of `a` followed by the file of `b`. */
  lemma {:induction false} RenderAppend(a: seq<Parameter>, b: seq<Parameter>)
    requires AllComplete(a) && AllComplete(b)
    ensures AllComplete(a + b)
    ensures Render(a + b) == Render(a) + Render(b)
  {
    if a == [] {
      assert a + b == b;
    } else {
      assert (a + b)[0] == a[0];
      assert (a + b)[1..] == a[1..] + b;
      RenderAppend(a[1..], b);
    }
  }

  /** The rendering as the source computes it: the lines are collected one
      after another into a single string. */
  method CollectLines(ps: seq<Parameter>) returns (lines: string)
    requires AllComplete(ps)
    ensures lines == Render(ps)
  {
    lines := "";
    var i := 0;
    while i < |ps|
      invariant 0 <= i <= |ps|
      invariant lines == Render(ps[..i])
    {
      assert ps[..i + 1] == ps[..i] + [ps[i]];
      RenderAppend(ps[..i], [ps[i]]);
      lines := lines + Line(ps[i]);
      i := i + 1;
    }
    assert ps[..i] == ps;
  }

  /** Reads one line (without its newline): the name is everything before the
      first `=`, the value is what remains with its surrounding quotes removed. */
  function ParseLine(line: string): (r: Option<Parameter>)
    ensures r.Some? ==> Complete(r.value) && '=' !in r.value.name.value
    // Whatever it accepts is the assignment of the parameter it returns.
    ensures r.Some? ==> Assignment(r.value) == line
  {
    match IndexOf(line, '=')
    case None => None
    case Some(k) =>
      var quoted := line[k + 1..];
      if |quoted| >= 2 && quoted[0] == '\'' && quoted[|quoted| - 1] == '\'' then
        var p := Parameter(Some(line[..k]), Some(quoted[1..|quoted| - 1]));
        assert quoted == "'" + p.value.value + "'";
        assert line == line[..k] + [line[k]] + quoted;
        Some(p)
      else
        None
  }

  lemma RenderCons(p: Parameter, rest: seq<Parameter>)
    requires Complete(p) && AllComplete(rest)
    ensures AllComplete([p] + rest)
    ensures Render([p] + rest) == Line(p) + Render(rest)
  {
    assert ([p] + rest)[0] == p;
    assert ([p] + rest)[1..] == rest;
  }

  /** One step of `Parse`: a first line that reads as `p`, followed by text
      that reads as `rest`, is the rendering of `[p] + rest`. */
  lemma ParseStep(s: string, i: nat, p: Parameter, rest: seq<Parameter>)
    requires i < |s| && s[i] == '\n' && '\n' !in s[..i]
    requires ParseLine(s[..i]) == Some(p)
    requires AllComplete(rest) && AllPlain(rest) && Render(rest) == s[i + 1..]
    ensures AllComplete([p] + rest) && AllPlain([p] + rest)
    ensures Render([p] + rest) == s
  {
    AssignmentNewlines(p);
    ConsPlain(p, rest);
    RenderCons(p, rest);
    assert s == s[..i] + [s[i]] + s[i + 1..];
  }

  /** A newline inside a name or value shows up in the assignment. */
  lemma AssignmentNewlines(p: Parameter)
    requires Complete(p) && '\n' !in Assignment(p)
    ensures '\n' !in p.name.value && '\n' !in p.value.value
  {
    var a := Assignment(p);
    var n := |p.name.value|;
    assert p.name.value == a[..n];
    assert p.value.value == a[n + 2..|a| - 1];
  }

  lemma ConsPlain(p: Parameter, rest: seq<Parameter>)
    requires Complete(p) && Plain(p) && AllComplete(rest) && AllPlain(rest)
    ensures AllComplete([p] + rest) && AllPlain([p] + rest)
  {
  }

  /** Reads a whole file: newline-terminated lines, each read by `ParseLine`. */
  function Parse(s: string): (r: Option<seq<Parameter>>)
    // Whatever it accepts is plain and renders back to the same text.
    ensures r.Some? ==> AllComplete(r.value) && AllPlain(r.value) && Render(r.value) == s
    decreases |s|
  {
    if s == [] then Some([])
    else
      match IndexOf(s, '\n')
      case None => None
      case Some(i) =>
        match ParseLine(s[..i])
        case None => None
        case Some(p) =>
          match Parse(s[i + 1..])
          case None => None
          case Some(rest) =>
            ParseStep(s, i, p, rest);
            Some([p] + rest)
  }

  /** Reading back the assignment of a plain parameter recovers it. */
  lemma ParseAssignment(p: Parameter)
    requires Complete(p) && Plain(p)
    ensures ParseLine(Assignment(p)) == Some(p)
  {
    var a := Assignment(p);
    var n := |p.name.value|;
    assert a[..n] == p.name.value;
    IndexOfFirst(a, '=', n);
  }

  /** The assignment of a plain parameter holds no newline. */
  lemma AssignmentSingleLine(p: Parameter)
    requires Complete(p) && Plain(p)
    ensures '\n' !in Assignment(p)
  {
    var a := Assignment(p);
    var n := |p.name.value|;
    assert a == a[..n] + [a[n]] + a[n + 1..];
  }

  /** Round trip: the rendered file of plain parameters reads back as exactly
      those parameters, in the same order. */
  lemma {:induction false} ParseRender(ps: seq<Parameter>)
    requires AllComplete(ps) && AllPlain(ps)
    ensures Parse(Render(ps)) == Some(ps)
  {
    if ps != [] {
      var p := ps[0];
      var s := Render(ps);
      var i := |Assignment(p)|;
      assert s == Line(p) + Render(ps[1..]);
      assert s[..i] == Assignment(p);
      assert s[i + 1..] == Render(ps[1..]);
      AssignmentSingleLine(p);
      IndexOfFirst(s, '\n', i);
      ParseAssignment(p);
      ParseRender(ps[1..]);
      assert [p] + ps[1..] == ps;
    }
  }

  /** With no newline inside names or values, the file has exactly one newline
      per parameter. */
  lemma {:induction false} RenderLineCount(ps: seq<Parameter>)
    requires AllComplete(ps)
    requires forall i :: 0 <= i < |ps| ==> '\n' !in ps[i].name.value && '\n' !in ps[i].value.value
    ensures Count(Render(ps), '\n') == |ps|
  {
    if ps != [] {
      var p := ps[0];
      var line := Line(p);
      assert line == p.name.value + "='" + p.value.value + "'" + "\n";
      CountAppend(p.name.value + "='" + p.value.value + "'", "\n", '\n');
      CountAppend(p.name.value, "='", '\n');
      CountAppend(p.name.value + "='", p.value.value, '\n');
      CountAppend(p.name.value + "='" + p.value.value, "'", '\n');
      CountAppend(line, Render(ps[1..]), '\n');
      RenderLineCount(ps[1..]);
    }
  }

  /** `write_environment_file`: render, then overwrite the target path. */
  function WriteEnvironmentFile(ps: seq<Parameter>, path: Path, files: Files, fault: Option<WriteFault>)
    : (r: (Result<()>, Files))
    requires AllComplete(ps)
    ensures r.1 - {path} == files - {path}
    ensures r.0.Ok? <==> fault.None?
    ensures r.0.Ok? ==> path in r.1 && r.1[path] == Render(ps)
    ensures r.0.Err? ==> r.0.error == IO(fault.value.cause)
    ensures r.1 == files || (path in r.1 && r.1[path] <= Render(ps))
  {
    var out := Write(files, path, Render(ps), fault);
    match out.error
    case Some(e) => (Err(IO(e)), out.files)
    case None => (Ok(()), out.files)
  }
}
