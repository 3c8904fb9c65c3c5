/** Which tool a trace export comes from: one format for the whole file, or an error. */
module TraceFormat {
  import opened Wrappers

  datatype Format = Hermes | ClaudeCode | Codex | OpenClaw

  /** A JSONL record by its markers: a string `type`, object `message` and `payload`, a string `event`. */
  datatype Record = Record(typed: bool, hasMessage: bool, hasPayload: bool, isEvent: bool, isHermes: bool, line: nat)

  datatype FormatError = Unrecognized | MixedFormats(line: nat)

  function RecordFormat(r: Record): Option<Format> {
    if r.typed && r.hasMessage then Some(ClaudeCode)
    else if r.typed && r.hasPayload then Some(Codex)
    else if r.isEvent then Some(OpenClaw)
    else None
  }

  predicate IsClaudeCode(records: seq<Record>) { exists r :: r in records && r.typed && r.hasMessage }

  predicate IsCodex(records: seq<Record>) { exists r :: r in records && r.typed && r.hasPayload }

  predicate IsOpenClaw(records: seq<Record>) { exists r :: r in records && r.isEvent }

  /** The JSONL part of `detectTraceFormat`. */
  function Detected(records: seq<Record>): Option<Format>
    requires records != []
  {
    if IsClaudeCode(records) then Some(ClaudeCode)
    else if IsCodex(records) then Some(Codex)
    else if IsOpenClaw(records) then Some(OpenClaw)
    else if records[0].isHermes then Some(Hermes)
    else None
  }

  /** The first record marked as another tool's. */
  method AssertSingleFormat(format: Format, records: seq<Record>) returns (error: Option<FormatError>)
    ensures error.None? <==> forall r :: r in records ==> RecordFormat(r) in {None, Some(format)}
    ensures error.Some? ==> exists i ::
      && 0 <= i < |records| && error.value == MixedFormats(records[i].line)
      && RecordFormat(records[i]) !in {None, Some(format)}
      && forall k :: 0 <= k < i ==> RecordFormat(records[k]) in {None, Some(format)}
  {
    for i := 0 to |records|
      invariant forall k :: 0 <= k < i ==> RecordFormat(records[k]) in {None, Some(format)}
    {
      var found := RecordFormat(records[i]);
      if found != None && found != Some(format) {
        assert records[i] in records;
        return Some(MixedFormats(records[i].line));
      }
    }
    return None;
  }

  /** The file holds records of this tool. */
  predicate Marked(records: seq<Record>, format: Format) {
    exists r :: r in records && RecordFormat(r) == Some(format)
  }

  /** Detection names the first of the three tools, in a fixed order, that some record is marked as. */
  lemma DetectionIsByMarks(records: seq<Record>)
    requires records != []
    ensures Detected(records) == Some(ClaudeCode) <==> Marked(records, ClaudeCode)
    ensures Detected(records) == Some(Codex) <==> Marked(records, Codex) && !Marked(records, ClaudeCode)
    ensures Detected(records) == Some(OpenClaw)
       <==> Marked(records, OpenClaw) && !Marked(records, Codex) && !Marked(records, ClaudeCode)
    ensures !Marked(records, Hermes)
  {
  }

  /**
   The choice of parser. A file that as a whole is one Hermes document goes to Hermes whatever else it carries.
   Of any other, a tool's parser is chosen exactly when some record is marked as that tool's and none as another's,
   wherever in the file the marked records stand; a file marked as two tools' is never parsed.
   */
  method ChooseParser(wholeIsHermes: bool, records: seq<Record>) returns (r: Result<Format, FormatError>)
    requires wholeIsHermes || records != []
    ensures forall f :: f != Hermes ==>
      (r == Ok(f) <==> !wholeIsHermes && Marked(records, f) && forall g :: Marked(records, g) ==> g == f)
    ensures r == Ok(Hermes) <==> wholeIsHermes || ((forall g :: !Marked(records, g)) && records[0].isHermes)
    ensures (r.Err? && r.error.MixedFormats?)
       <==> !wholeIsHermes && exists f, g :: f != g && Marked(records, f) && Marked(records, g)
  {
    if wholeIsHermes { return Ok(Hermes); }
    DetectionIsByMarks(records);
    hide Detected, RecordFormat;
    var detected := Detected(records);
    if detected.None? {
      DetectedNone(records);
      return Err(Unrecognized);
    }
    var format := detected.value;
    if format == Hermes {
      DetectedNone(records);
      return Ok(Hermes);
    }
    var error := AssertSingleFormat(format, records);
    if error.Some? {
      ghost var i :| 0 <= i < |records| && RecordFormat(records[i]) !in {None, Some(format)};
      assert records[i] in records && Marked(records, RecordFormat(records[i]).value);
      return Err(error.value);
    }
    return Ok(format);
  }

  lemma DetectedNone(records: seq<Record>)
    requires records != [] && Detected(records) in {None, Some(Hermes)}
    ensures forall g :: !Marked(records, g)
    ensures Detected(records) == Some(Hermes) <==> records[0].isHermes
  {
  }
}
