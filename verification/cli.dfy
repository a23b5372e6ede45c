/**
 * The command-line client: it posts the question to `/ask` and prints the
 * answer and the sources in ANSI colours. The HTTP request and the parsing
 * of arguments are outside the model; `Render` receives the two fields of
 * the decoded reply.
 */
module Cli {
  import opened Outcomes
  import opened Text

  const Esc: char := '\U{1b}'
  const Reset: string := [Esc] + "[0m"
  const Bullet: string := "  – "
  const NoSources: string := "  (none)"
  const NoAnswer: string := "(no answer returned)"

  /**
   * `color(text, code)`: the text unchanged, behind the escape sequence that
   * selects `code` and before the one that resets the attributes.
   */
  function Color(text: string, code: string): (r: string)
    ensures |r| == 3 + |code| + |text| + |Reset|
    ensures r[..2] == [Esc, '['] && r[2..2 + |code|] == code && r[2 + |code|] == 'm'
    ensures r[3 + |code|..3 + |code| + |text|] == text
    ensures r[3 + |code| + |text|..] == Reset
  {
    [Esc, '['] + code + "m" + text + Reset
  }

  /** The line printed for one source. */
  function BulletLines(srcs: seq<string>): (lines: seq<string>)
    ensures |lines| == |srcs|
    ensures forall k :: 0 <= k < |srcs| ==> lines[k] == Bullet + srcs[k]
  {
    seq(|srcs|, k requires 0 <= k < |srcs| => Bullet + srcs[k])
  }

  /**
   * `pretty_sources`: one bulleted line per source, joined by newlines with
   * none at the end, or the placeholder when there are none; the placeholder
   * is never what a source list prints.
   */
  function PrettySources(srcs: seq<string>): (r: string)
    ensures r == NoSources <==> srcs == []
    ensures srcs != [] ==> |Bullet| <= |r| && r[..|Bullet|] == Bullet
  {
    if srcs == [] then NoSources
    else
      var lines := BulletLines(srcs);
      var r := Join("\n", lines);
      JoinStartsWithFirst("\n", lines);
      assert r[..|lines[0]|] == lines[0];
      assert r[..|Bullet|] == lines[0][..|Bullet|] == Bullet;
      assert r[2] != NoSources[2];
      r
  }

  /**
   * When no source contains a newline, the printed block splits back into
   * exactly one bulleted line per source, in order.
   */
  lemma PrettySourcesLines(srcs: seq<string>)
    requires srcs != []
    requires forall k :: 0 <= k < |srcs| ==> '\n' !in srcs[k]
    ensures Split(PrettySources(srcs), '\n') == BulletLines(srcs)
  {
    var lines := BulletLines(srcs);
    forall k | 0 <= k < |lines| ensures '\n' !in lines[k] {
      assert lines[k] == Bullet + srcs[k];
    }
    SplitJoin(lines, '\n');
  }

  /**
   * What `main` prints for a decoded reply: the green heading, the answer or
   * its placeholder, the blue heading and the sources, each `print` ending
   * its line.
   */
  function Render(answer: Option<string>, sources: Option<seq<string>>): (out: string)
    ensures var head, shown := Color("\nAnswer", "1;32") + "\n", answer.GetOr(NoAnswer);
      && |head| + |shown| < |out|
      && out[..|head|] == head
      && out[|head|..|head| + |shown|] == shown
      && out[|head| + |shown|] == '\n'
    ensures var tail := PrettySources(sources.GetOr([])) + "\n";
      && |tail| <= |out|
      && out[|out| - |tail|..] == tail
  {
    var head, shown := Color("\nAnswer", "1;32") + "\n", answer.GetOr(NoAnswer);
    var middle := "\n" + Color("\nSources", "1;34") + "\n";
    var tail := PrettySources(sources.GetOr([])) + "\n";
    FourParts(head, shown, middle, tail);
    head + shown + middle + tail
  }

  /** Where each of four concatenated parts sits in the result. */
  lemma FourParts(a: string, b: string, c: string, d: string)
    requires c != []
    ensures var s := a + b + c + d;
      && |s| == |a| + |b| + |c| + |d|
      && s[..|a|] == a
      && s[|a|..|a| + |b|] == b
      && s[|a| + |b|] == c[0]
      && s[|s| - |d|..] == d
  {
    var s := a + b + c + d;
    assert s == a + (b + (c + d));
    assert s[|a|..] == b + (c + d);
    assert s[|a|..][..|b|] == b;
  }

  /** A reply without `sources` prints like one with an empty list. */
  lemma MissingSourcesAsEmpty(answer: Option<string>)
    ensures Render(answer, None) == Render(answer, Some([]))
  {
  }
}
