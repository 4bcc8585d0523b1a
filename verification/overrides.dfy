/**
  The builder's `additionalArguments` input: one `key=value` override per
  line, split at the first `=`; lines without `=` are dropped silently.
 */
module Overrides {
  import opened Wrappers

  /** Index of the first `c` in `s`, like `indexOf` (which answers -1 when absent). */
  function IndexOf(s: string, c: char): (r: Option<nat>)
    ensures r.None? <==> c !in s
    ensures r.Some? ==> r.value < |s| && s[r.value] == c && c !in s[..r.value]
  {
    if s == [] then None
    else if s[0] == c then Some(0)
    else
      match IndexOf(s[1..], c)
      case None => None
      case Some(i) =>
        assert s[..i + 1] == [s[0]] + s[1..][..i];
        Some(i + 1)
  }

  /** One override line: `None` when the line has no `=`. */
  function ParseLine(line: string): (r: Option<(string, string)>)
    ensures r.None? <==> '=' !in line
    ensures r.Some? ==> '=' !in r.value.0 && r.value.0 + "=" + r.value.1 == line
  {
    match IndexOf(line, '=')
    case None => None
    case Some(i) =>
      assert line == line[..i] + "=" + line[i + 1..];
      Some((line[..i], line[i + 1..]))
  }

  /** The pairs of every line that contains `=`, in input order. */
  function ParseLines(lines: seq<string>): (r: seq<(string, string)>)
    ensures |r| <= |lines|
    ensures forall i :: 0 <= i < |r| ==> '=' !in r[i].0 && r[i].0 + "=" + r[i].1 in lines
  {
    if lines == [] then []
    else
      match ParseLine(lines[0])
      case None => ParseLines(lines[1..])
      case Some(kv) => [kv] + ParseLines(lines[1..])
  }

  /** Writes a pair back as an override line. */
  function Render(kv: (string, string)): string {
    kv.0 + "=" + kv.1
  }

  function RenderAll(kvs: seq<(string, string)>): seq<string> {
    if kvs == [] then [] else [Render(kvs[0])] + RenderAll(kvs[1..])
  }

  /** The lines the parser keeps, in input order. */
  function KeptLines(lines: seq<string>): seq<string> {
    if lines == [] then []
    else if '=' in lines[0] then [lines[0]] + KeptLines(lines[1..])
    else KeptLines(lines[1..])
  }

  /** A pair whose key has no `=` survives rendering and parsing, even when its value contains `=`. */
  lemma ParseRender(kv: (string, string))
    requires '=' !in kv.0
    ensures ParseLine(Render(kv)) == Some(kv)
  {
    var line := Render(kv);
    var i := |kv.0|;
    assert line[i] == '=';
    assert line[..i] == kv.0;
    assert line[i + 1..] == kv.1;
  }

  /** Parsing then rendering gives back exactly the lines that contain `=`. */
  lemma {:induction false} RenderParseLines(lines: seq<string>)
    ensures RenderAll(ParseLines(lines)) == KeptLines(lines)
  {
    if lines != [] {
      RenderParseLines(lines[1..]);
    }
  }

  /** Rendering then parsing gives back the pairs, when no key contains `=`. */
  lemma {:induction false} ParseRenderAll(kvs: seq<(string, string)>)
    requires forall i :: 0 <= i < |kvs| ==> '=' !in kvs[i].0
    ensures ParseLines(RenderAll(kvs)) == kvs
  {
    if kvs != [] {
      ParseRender(kvs[0]);
      ParseRenderAll(kvs[1..]);
      assert RenderAll(kvs)[1..] == RenderAll(kvs[1..]);
    }
  }
}
