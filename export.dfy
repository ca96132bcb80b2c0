/** The per-topic result a run accumulates, and the plain-text download
    built from the results: one block `topic:\ncaptions` per result, the
    blocks joined by a blank line. */
module Export {
  import opened Text

  /** One entry of `all_captions`: `{"Topic": topic, "Captions": captions}`. */
  datatype CaptionResult = CaptionResult(topic: string, captions: string)

  const BlockSeparator := "\n\n"

  /** The text block of one result: the topic, a colon ending its line,
      then the captions. */
  function Block(r: CaptionResult): (block: string)
    ensures |block| == |r.topic| + 2 + |r.captions|
    ensures block[..|r.topic|] == r.topic
    ensures block[|r.topic|..|r.topic| + 2] == ":\n"
    ensures block[|r.topic| + 2..] == r.captions
  {
    r.topic + ":\n" + r.captions
  }

  /** A block determines its result when the topic holds no line feed, as
      every parsed topic does: the first line feed ends the topic line. */
  lemma BlockInjective(r1: CaptionResult, r2: CaptionResult)
    requires '\n' !in r1.topic && '\n' !in r2.topic
    requires Block(r1) == Block(r2)
    ensures r1 == r2
  {
    var a1, a2 := r1.topic + ":", r2.topic + ":";
    var x1, x2 := "\n" + r1.captions, "\n" + r2.captions;
    assert Block(r1) == a1 + x1 && Block(r2) == a2 + x2;
    assert '\n' !in a1 && '\n' !in a2;
    FirstOccurrence(a1, x1, a2, x2, '\n');
    assert r1.topic == a1[..|a1| - 1] && r2.topic == a2[..|a2| - 1];
    assert r1.captions == x1[1..] && r2.captions == x2[1..];
  }

  /** The blocks of the results, in order. The ensures spell out the
      comprehension element by element so that the solver has these facts
      at hand. */
  function Blocks(rs: seq<CaptionResult>): (blocks: seq<string>)
    ensures |blocks| == |rs|
    ensures forall i :: 0 <= i < |rs| ==> blocks[i] == Block(rs[i])
  {
    seq(|rs|, i requires 0 <= i < |rs| => Block(rs[i]))
  }

  /** The TXT download: `"\n\n".join(...)` over the blocks. It is empty
      exactly when there are no results; otherwise it holds every block and
      a blank line between each two. */
  function ExportTxt(rs: seq<CaptionResult>): (txt: string)
    ensures txt == [] <==> rs == []
    ensures rs != [] ==> |txt| == TotalLength(Blocks(rs)) + (|rs| - 1) * |BlockSeparator|
  {
    var blocks := Blocks(rs);
    assert blocks != [] ==> TotalLength(blocks) >= |blocks[0]| >= 2;
    Join(blocks, BlockSeparator)
  }

  /** No results give an empty file, and one result gives exactly its
      block. */
  lemma ExportTxtSmall(r: CaptionResult)
    ensures ExportTxt([]) == []
    ensures ExportTxt([r]) == r.topic + ":\n" + r.captions
  {
    assert Blocks([r]) == [Block(r)];
  }

  /** Exporting two runs' results together is exporting each and putting a
      blank line between them: the blocks follow the results' order and
      nothing else is added. */
  lemma ExportTxtAppend(rs1: seq<CaptionResult>, rs2: seq<CaptionResult>)
    requires rs1 != [] && rs2 != []
    ensures ExportTxt(rs1 + rs2) == ExportTxt(rs1) + BlockSeparator + ExportTxt(rs2)
  {
    assert Blocks(rs1 + rs2) == Blocks(rs1) + Blocks(rs2);
    JoinAppend(Blocks(rs1), Blocks(rs2), BlockSeparator);
  }

  /** The file starts with the first result's block and, after it, is
      either empty or a blank line followed by the export of the rest. */
  lemma ExportTxtCons(rs: seq<CaptionResult>)
    requires rs != []
    ensures |rs| == 1 ==> ExportTxt(rs) == Block(rs[0])
    ensures |rs| > 1 ==> ExportTxt(rs) == Block(rs[0]) + BlockSeparator + ExportTxt(rs[1..])
  {
    if |rs| > 1 {
      ExportTxtAppend([rs[0]], rs[1..]);
      assert [rs[0]] + rs[1..] == rs;
      assert Blocks([rs[0]]) == [Block(rs[0])];
    } else {
      assert Blocks(rs) == [Block(rs[0])];
    }
  }

  /** The file does not determine the results: a caption holding a blank
      line and a line ending in ':' reads the same as two results. */
  lemma ExportTxtAmbiguous()
    ensures ExportTxt([CaptionResult("a", "x\n\nb:\ny")])
         == ExportTxt([CaptionResult("a", "x"), CaptionResult("b", "y")])
  {
    var one := [CaptionResult("a", "x\n\nb:\ny")];
    var two := [CaptionResult("a", "x"), CaptionResult("b", "y")];
    ExportTxtSmall(one[0]);
    ExportTxtCons(two);
    ExportTxtSmall(two[1]);
    assert two[1..] == [two[1]];
  }
}
