/**
 * What the two TCIA "about" scripts (main/js/about.js and
 * main/js/tcia-about-new.js) share: the member-popup biography, one
 * drop-cap paragraph per non-blank line, and the seven-colour cycle of the
 * organisation pillars.
 */
module TeamBio {
  import opened Wrappers
  import opened Strings

  // ------------------------------------------------------------ biography

  /** One rendered paragraph: the drop-cap letter and the rest of the line. */
  datatype DropCap = DropCap(first: char, rest: string)

  /** `<p><span class="drop-cap">first</span>rest</p>` */
  function Markup(p: DropCap): string {
    "<p><span class=\"drop-cap\">" + [p.first] + "</span>" + p.rest + "</p>"
  }

  /** The map callback: a blank line renders as '', any other line as a drop-cap paragraph. */
  function LineMarkup(line: string): string {
    if IsBlank(line) then "" else Markup(DropCap(line[0], line[1..]))
  }

  function Concat(parts: seq<string>): string {
    if parts == [] then "" else parts[0] + Concat(parts[1..])
  }

  function MapLineMarkup(lines: seq<string>): (r: seq<string>)
    ensures |r| == |lines|
  {
    if lines == [] then [] else [LineMarkup(lines[0])] + MapLineMarkup(lines[1..])
  }

  /** The non-blank lines, in order, as drop-cap paragraphs. */
  function Paragraphs(lines: seq<string>): (r: seq<DropCap>)
    ensures |r| <= |lines|
    ensures r == [] <==> forall i :: 0 <= i < |lines| ==> IsBlank(lines[i])
  {
    if lines == [] then []
    else
      assert forall i :: 0 < i < |lines| ==> lines[i] == lines[1..][i - 1];
      if IsBlank(lines[0]) then Paragraphs(lines[1..])
      else [DropCap(lines[0][0], lines[0][1..])] + Paragraphs(lines[1..])
  }

  function MapMarkup(ps: seq<DropCap>): seq<string> {
    if ps == [] then [] else [Markup(ps[0])] + MapMarkup(ps[1..])
  }

  /**
   * The biography part of `showMemberPopup`: `None` hides the bio container
   * (missing, empty or whitespace-only bio); otherwise the HTML of
   * `bio.split('\n').map(...).join('')`.
   */
  function BioHtml(bio: Option<string>): (r: Option<string>)
    ensures r.None? <==> bio.None? || IsBlank(bio.value)
  {
    if bio.None? || Trim(bio.value) == "" then None
    else Some(Join(MapLineMarkup(SplitOn(bio.value, "\n")), ""))
  }

  lemma {:induction false} JoinEmptyIsConcat(parts: seq<string>)
    ensures Join(parts, "") == Concat(parts)
  {
    if |parts| > 1 {
      JoinEmptyIsConcat(parts[1..]);
    } else if |parts| == 1 {
      assert Concat(parts[1..]) == "";
    }
  }

  lemma {:induction false} ConcatAppend(a: seq<string>, b: seq<string>)
    ensures Concat(a + b) == Concat(a) + Concat(b)
  {
    if a != [] {
      assert (a + b)[1..] == a[1..] + b;
      ConcatAppend(a[1..], b);
    } else {
      assert a + b == b;
    }
  }

  /** Blank lines contribute nothing: the rendered lines are the paragraphs' markup. */
  lemma {:induction false} LinesRenderAsParagraphs(lines: seq<string>)
    ensures Concat(MapLineMarkup(lines)) == Concat(MapMarkup(Paragraphs(lines)))
  {
    if lines != [] {
      LinesRenderAsParagraphs(lines[1..]);
      if !IsBlank(lines[0]) {
        var p := DropCap(lines[0][0], lines[0][1..]);
        assert MapMarkup([p] + Paragraphs(lines[1..])) == [Markup(p)] + MapMarkup(Paragraphs(lines[1..]));
      }
    }
  }

  /**
   * The paragraphs are exactly the non-blank lines, in order, each split
   * into its first character and the unchanged remainder.
   */
  lemma {:induction false} ParagraphsAreNonBlankLines(lines: seq<string>)
    ensures forall k :: 0 <= k < |Paragraphs(lines)| ==>
              var p := Paragraphs(lines)[k]; !IsBlank([p.first] + p.rest)
    ensures |Paragraphs(lines)| <= |lines|
    ensures (exists k :: 0 <= k < |lines| && !IsBlank(lines[k])) ==> |Paragraphs(lines)| >= 1
  {
    if lines != [] {
      ParagraphsAreNonBlankLines(lines[1..]);
      if !IsBlank(lines[0]) {
        assert [lines[0][0]] + lines[0][1..] == lines[0];
      } else if exists k :: 0 <= k < |lines| && !IsBlank(lines[k]) {
        var k :| 0 <= k < |lines| && !IsBlank(lines[k]);
        assert lines[1..][k - 1] == lines[k];
      }
    }
  }

  /**
   * A shown biography is the concatenation of one drop-cap paragraph per
   * non-blank line of the bio, and there is at least one such paragraph.
   */
  lemma BioIsParagraphs(bio: string)
    requires !IsBlank(bio)
    ensures BioHtml(Some(bio)) == Some(Concat(MapMarkup(Paragraphs(SplitOn(bio, "\n")))))
    ensures |Paragraphs(SplitOn(bio, "\n"))| >= 1
  {
    var lines := SplitOn(bio, "\n");
    JoinEmptyIsConcat(MapLineMarkup(lines));
    LinesRenderAsParagraphs(lines);
    ParagraphsAreNonBlankLines(lines);
    if forall k :: 0 <= k < |lines| ==> IsBlank(lines[k]) {
      JoinSplit(bio, '\n');
      JoinBlank(lines, "\n");
      assert false;
    }
  }

  // -------------------------------------------------------------- pillars

  /** `tciaColors` */
  const TciaColors: seq<string> :=
    ["#FF6B6B", "#4ECDC4", "#45B7D1", "#FFA07A", "#98D8C8", "#F7DC6F", "#BB8FCE"]

  /** `tciaColors[index % tciaColors.length]` */
  function PillarColor(index: nat): (r: string)
    ensures r in TciaColors && |r| == 7 && r[0] == '#'
    ensures index < |TciaColors| ==> r == TciaColors[index]
  {
    TciaColors[index % |TciaColors|]
  }

  /** A pillar as drawn: its text and its background colour. */
  datatype Pillar = Pillar(text: string, color: string)

  /** The pillars `createPillars` appends, one per entry, in order. */
  function Pillars(texts: seq<string>): (r: seq<Pillar>)
    ensures |r| == |texts|
    ensures forall i :: 0 <= i < |r| ==> r[i].text == texts[i]
  {
    seq(|texts|, i requires 0 <= i < |texts| => Pillar(texts[i], PillarColor(i)))
  }

  /**
   * Colours repeat with period seven and neighbouring pillars never share
   * a colour.
   */
  lemma PillarColorCycle(i: nat)
    ensures PillarColor(i + 7) == PillarColor(i)
    ensures PillarColor(i) != PillarColor(i + 1)
  {
    assert (i + 1) % 7 == if i % 7 == 6 then 0 else i % 7 + 1;
  }
}
