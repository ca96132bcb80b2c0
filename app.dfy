/** What pressing "Generate Captions" does: parse the topic box, stop with a
    warning when it holds no topic, otherwise ask for captions topic by
    topic, in order, collecting one result per topic, and offer the results
    for download as a table (CSV) or as text (TXT). */
module App {
  import opened Text
  import opened Config
  import opened Topics
  import opened Prompts
  import opened Export

  const NoTopicsWarning := "Please enter at least one topic."

  /** What the download button offers: the table of results that is
      written out as CSV, or the TXT text. */
  datatype Download = CsvDownload(rows: seq<CaptionResult>) | TxtDownload(text: string)

  datatype RunOutcome =
    | Warned(warning: string)
    | Generated(results: seq<CaptionResult>, download: Download)

  /** The loop over the topics: the generator is called once per topic,
      in order, and each answer is appended to `allCaptions` with its
      topic. `generate(i, t)` is the answer of the i-th call, made for
      topic `t`; `calls` lists the topics the loop passed to it. */
  method GenerateAll(topics: seq<string>, generate: (nat, string) -> string)
    returns (allCaptions: seq<CaptionResult>, calls: seq<string>)
    ensures calls == topics
    ensures |allCaptions| == |topics|
    ensures forall i :: 0 <= i < |topics| ==>
      allCaptions[i].topic == topics[i] && allCaptions[i].captions == generate(i, topics[i])
  {
    allCaptions, calls := [], [];
    for i := 0 to |topics|
      invariant calls == topics[..i]
      invariant |allCaptions| == i
      invariant forall k :: 0 <= k < i ==>
        allCaptions[k].topic == topics[k] && allCaptions[k].captions == generate(k, topics[k])
    {
      var topic := topics[i];
      calls := calls + [topic];
      var captions := generate(i, topic);
      allCaptions := allCaptions + [CaptionResult(topic, captions)];
    }
  }

  /** One press of the button. With no topic in the box, only the warning
      is shown and the service is never called. Otherwise topic i is sent
      as the i-th call, in input order, and the results and the download
      follow the export format. */
  method Run(cfg: Settings, bulkInput: string, remote: (nat, Request) -> Completion)
    returns (outcome: RunOutcome, calls: seq<string>)
    ensures calls == ParseTopics(bulkInput)
    ensures outcome.Warned? <==> Blank(bulkInput)
    ensures outcome.Warned? ==> outcome.warning == NoTopicsWarning && calls == []
    ensures outcome.Generated? ==>
      && |outcome.results| == |calls|
      && (forall i :: 0 <= i < |calls| ==>
            outcome.results[i] == CaptionResult(calls[i], GenerateCaptions(cfg, remote, i, calls[i])))
      && outcome.download == (if cfg.exportFormat == Csv then CsvDownload(outcome.results)
                              else TxtDownload(ExportTxt(outcome.results)))
  {
    var topics := ParseTopics(bulkInput);
    ParseTopicsEmptyIff(bulkInput);
    if topics == [] {
      outcome, calls := Warned(NoTopicsWarning), [];
    } else {
      var allCaptions;
      allCaptions, calls := GenerateAll(topics, (i: nat, topic: string) => GenerateCaptions(cfg, remote, i, topic));
      if cfg.exportFormat == Csv {
        outcome := Generated(allCaptions, CsvDownload(allCaptions));
      } else {
        outcome := Generated(allCaptions, TxtDownload(ExportTxt(allCaptions)));
      }
    }
  }
}
