/**
 * `save_note`: write a research/business result to `notes/<title>_<ts>.md`.
 * The clock readings are parameters (`timestamp` for the file name, taken
 * first, and `created` for the `Created:` line, taken when the file is being
 * written), and `json.dumps(..., ensure_ascii=False, indent=2)` is the
 * parameter `dumps`.
 */
module Notes {
  import opened Wrappers
  import opened PyStrings

  /** A JSON-compatible Python value; a dict is its key/value pairs in insertion order. */
  datatype Json =
    | JNull
    | JBool(b: bool)
    | JNumber(n: real)
    | JString(s: string)
    | JArray(items: seq<Json>)
    | JObject(members: seq<(string, Json)>)

  /** `d.get(key)` on a dict, whose keys are distinct: the value stored under the key. */
  function Lookup(members: seq<(string, Json)>, key: string): (r: Option<Json>)
    ensures r.Some? <==> exists i :: 0 <= i < |members| && members[i].0 == key
    ensures r.Some? ==> exists i :: 0 <= i < |members| && members[i] == (key, r.value)
    decreases |members|
  {
    if members == [] then None
    else if members[0].0 == key then Some(members[0].1)
    else
      var r := Lookup(members[1..], key);
      assert forall i :: 1 <= i < |members| ==> members[i] == members[1..][i - 1];
      r
  }

  const NOTES_DIR := "notes"

  /** `f"notes/{title.replace(' ', '_')}_{ts}.md"`. */
  function NoteFileName(title: string, timestamp: string): string {
    NOTES_DIR + "/" + ReplaceAll(title, " ", "_") + "_" + timestamp + ".md"
  }

  /**
   * The file name is the notes directory, the title with every space turned
   * into an underscore (same length, nothing else changed), '_', the
   * timestamp and ".md".
   */
  lemma NoteFileNameShape(title: string, timestamp: string)
    ensures var name := NoteFileName(title, timestamp);
      && |name| == |title| + |timestamp| + 10
      && StartsWith(name, "notes/")
      && EndsWith(name, "_" + timestamp + ".md")
      && (forall i :: 0 <= i < |title| ==>
            name[6 + i] == (if title[i] == ' ' then '_' else title[i]))
      && (forall i :: 6 <= i < 6 + |title| ==> name[i] != ' ')
  {
    ReplaceCharPointwise(title, ' ', '_');
    var slug := ReplaceAll(title, " ", "_");
    var name := NoteFileName(title, timestamp);
    assert name == "notes/" + slug + "_" + timestamp + ".md";
    forall i | 6 <= i < 6 + |title| ensures name[i] != ' ' {
      assert name[i] == slug[i - 6];
    }
  }

  /**
   * Two titles that differ only in spaces against underscores get the same
   * file name: saved within the same second, the second note overwrites the first.
   */
  lemma SpaceUnderscoreCollision(t1: string, t2: string, timestamp: string)
    requires |t1| == |t2|
    requires forall i :: 0 <= i < |t1| ==>
      t1[i] == t2[i] || (t1[i] in {' ', '_'} && t2[i] in {' ', '_'})
    ensures NoteFileName(t1, timestamp) == NoteFileName(t2, timestamp)
  {
    ReplaceCharPointwise(t1, ' ', '_');
    ReplaceCharPointwise(t2, ' ', '_');
    assert ReplaceAll(t1, " ", "_") == ReplaceAll(t2, " ", "_");
  }

  /**
   * `summary_text`: `research_summary.get("summary", "")` for a dict, the
   * value itself otherwise; `None` when it is not a string, so that
   * `summary_text + "\n\n"` raises `TypeError`.
   */
  function SummaryText(researchSummary: Json): (r: Option<string>)
    ensures researchSummary.JString? ==> r == Some(researchSummary.s)
    ensures researchSummary.JObject? && Lookup(researchSummary.members, "summary").None? ==> r == Some("")
    ensures researchSummary.JObject? && Lookup(researchSummary.members, "summary").Some? ==>
      (r.Some? <==> Lookup(researchSummary.members, "summary").value.JString?)
    ensures (researchSummary.JObject? && Lookup(researchSummary.members, "summary").Some?
             && Lookup(researchSummary.members, "summary").value.JString?) ==>
      r == Some(Lookup(researchSummary.members, "summary").value.s)
    ensures !researchSummary.JString? && !researchSummary.JObject? ==> r.None?
  {
    match researchSummary
    case JString(s) => Some(s)
    case JObject(members) =>
      (match Lookup(members, "summary")
       case None => Some("")
       case Some(JString(s)) => Some(s)
       case Some(_) => None)
    case _ => None
  }

  /** The `## Sources` block is written iff the argument is a dict with a "sources" key. */
  function SourcesOf(researchSummary: Json): (r: Option<Json>)
    ensures r.Some? <==> researchSummary.JObject? && Lookup(researchSummary.members, "sources").Some?
    ensures researchSummary.JObject? ==> r == Lookup(researchSummary.members, "sources")
  {
    if researchSummary.JObject? then Lookup(researchSummary.members, "sources") else None
  }

  function Dumped(sources: Option<Json>, dumps: Json -> string): Option<string> {
    match sources
    case None => None
    case Some(j) => Some(dumps(j))
  }

  /** The first three `f.write` calls, made before the summary text is used. */
  function HeaderWrites(title: string, created: string): seq<string> {
    ["# " + title + "\n\n", "Created: " + created + "\n\n", "## Research Summary\n\n"]
  }

  /** Every `f.write` argument, in call order. */
  function NoteWrites(title: string, created: string, summary: string,
                      sources: Option<string>, business: string): seq<string>
  {
    HeaderWrites(title, created)
    + [summary + "\n\n"]
    + (if sources.Some? then ["## Sources\n\n", "```json\n", sources.value, "\n```\n\n"] else [])
    + ["## Business Data\n\n", "```json\n", business, "\n```\n"]
  }

  function Concat(ws: seq<string>): string
    decreases |ws|
  {
    if ws == [] then "" else ws[0] + Concat(ws[1..])
  }

  lemma {:induction false} ConcatAppend(a: seq<string>, b: seq<string>)
    ensures Concat(a + b) == Concat(a) + Concat(b)
    decreases |a|
  {
    if a == [] {
      assert a + b == b;
    } else {
      assert (a + b)[1..] == a[1..] + b;
      ConcatAppend(a[1..], b);
    }
  }

  /** The file's text. */
  function NoteDocument(title: string, created: string, summary: string,
                        sources: Option<string>, business: string): string
  {
    Concat(NoteWrites(title, created, summary, sources, business))
  }

  /** `Concat` of four writes. */
  lemma ConcatFour(a: string, b: string, c: string, d: string)
    ensures Concat([a, b, c, d]) == a + b + c + d
  {
    assert [d][1..] == [];
    assert Concat([d]) == d + "" == d;
    assert [c, d][1..] == [d];
    assert Concat([c, d]) == c + d;
    assert [b, c, d][1..] == [c, d];
    assert Concat([b, c, d]) == b + (c + d);
    assert [a, b, c, d][1..] == [b, c, d];
    assert Concat([a, b, c, d]) == a + (b + (c + d));
    assert a + (b + (c + d)) == a + b + c + d;
  }

  /** Four `write` calls in a row append their four arguments. */
  lemma AppendFour(m: seq<string>, a: string, b: string, c: string, d: string)
    ensures m + [a] + [b] + [c] + [d] == m + [a, b, c, d]
  {
  }

  /** The title line, the creation line, the summary heading and the summary text. */
  function NoteHead(title: string, created: string, summary: string): string {
    ("# " + title + "\n\n") + ("Created: " + created + "\n\n") + "## Research Summary\n\n" + (summary + "\n\n")
  }

  function SourcesSection(sources: Option<string>): string {
    if sources.Some? then "## Sources\n\n" + "```json\n" + sources.value + "\n```\n\n" else ""
  }

  /** The Business Data heading and its fenced JSON block, the last thing written. */
  function NoteTail(business: string): string {
    "## Business Data\n\n" + "```json\n" + business + "\n```\n"
  }

  /**
   * The document, section by section: the head (title, creation line,
   * summary), the Sources section only when there are sources, and the
   * Business Data block last.
   */
  lemma {:induction false} NoteDocumentLayout(title: string, created: string, summary: string,
                                              sources: Option<string>, business: string)
    ensures NoteDocument(title, created, summary, sources, business)
         == NoteHead(title, created, summary) + SourcesSection(sources) + NoteTail(business)
  {
    var head := HeaderWrites(title, created) + [summary + "\n\n"];
    var mid := if sources.Some? then ["## Sources\n\n", "```json\n", sources.value, "\n```\n\n"] else [];
    var tail := ["## Business Data\n\n", "```json\n", business, "\n```\n"];
    assert NoteWrites(title, created, summary, sources, business) == head + mid + tail;
    ConcatAppend(head + mid, tail);
    ConcatAppend(head, mid);
    assert head == ["# " + title + "\n\n", "Created: " + created + "\n\n", "## Research Summary\n\n", summary + "\n\n"];
    ConcatFour("# " + title + "\n\n", "Created: " + created + "\n\n", "## Research Summary\n\n", summary + "\n\n");
    assert Concat(head) == NoteHead(title, created, summary);
    if sources.Some? {
      ConcatFour("## Sources\n\n", "```json\n", sources.value, "\n```\n\n");
    } else {
      assert Concat(mid) == "";
    }
    assert Concat(mid) == SourcesSection(sources);
    ConcatFour("## Business Data\n\n", "```json\n", business, "\n```\n");
    assert Concat(tail) == NoteTail(business);
  }

  /**
   * Every note opens with its title line and closes with the Business Data
   * block; leaving the sources out removes exactly the Sources section and
   * changes nothing else.
   */
  lemma SourcesSectionOnly(title: string, created: string, summary: string,
                           sources: string, business: string)
    ensures var withSources := NoteDocument(title, created, summary, Some(sources), business);
      var without := NoteDocument(title, created, summary, None, business);
      && withSources == NoteHead(title, created, summary) + SourcesSection(Some(sources)) + NoteTail(business)
      && without == NoteHead(title, created, summary) + NoteTail(business)
      && StartsWith(withSources, "# " + title + "\n\n") && StartsWith(without, "# " + title + "\n\n")
      && EndsWith(withSources, NoteTail(business)) && EndsWith(without, NoteTail(business))
  {
    NoteDocumentLayout(title, created, summary, Some(sources), business);
    NoteDocumentLayout(title, created, summary, None, business);
    var line := "# " + title + "\n\n";
    var head := NoteHead(title, created, summary);
    assert head[..|line|] == line;
    var withSources := head + SourcesSection(Some(sources)) + NoteTail(business);
    var without := head + NoteTail(business);
    assert withSources[..|line|] == line;
    assert without[..|line|] == line;
  }

  /**
   * A dict whose "summary" entry is a string and which has no "sources"
   * entry, the way the app calls `save_note`: the note carries that string
   * under the summary heading, then the Business Data block, and nothing else.
   */
  lemma DictSummaryNote(members: seq<(string, Json)>, s: string, title: string, created: string,
                        dumps: Json -> string, businessData: Json)
    requires Lookup(members, "summary") == Some(JString(s))
    requires Lookup(members, "sources") == None
    ensures SummaryText(JObject(members)) == Some(s)
    ensures Dumped(SourcesOf(JObject(members)), dumps) == None
    ensures NoteDocument(title, created, s, None, dumps(businessData))
         == NoteHead(title, created, s) + NoteTail(dumps(businessData))
    ensures EndsWith(NoteHead(title, created, s), "## Research Summary\n\n" + (s + "\n\n"))
  {
    NoteDocumentLayout(title, created, s, None, dumps(businessData));
    var front := ("# " + title + "\n\n") + ("Created: " + created + "\n\n");
    var section := "## Research Summary\n\n" + (s + "\n\n");
    assert NoteHead(title, created, s) == front + section;
    assert (front + section)[|front|..] == section;
  }

  datatype NoteFailure = SummaryNotText(value: Json)

  /**
   * The open file `f`; opening for writing ("w") empties it. `Writes` is the
   * ghost log of the `f.write` calls so far, and the text is their concatenation.
   */
  class NoteFile {
    const path: string
    var content: string
    ghost var Writes: seq<string>

    ghost predicate Valid()
      reads this
    {
      content == Concat(Writes)
    }

    constructor Open(path: string)
      ensures Valid() && this.path == path && Writes == [] && content == ""
    {
      this.path := path;
      content := "";
      Writes := [];
    }

    method Write(s: string)
      requires Valid()
      modifies this
      ensures Valid() && Writes == old(Writes) + [s]
      ensures content == old(content) + s
    {
      ConcatAppend(Writes, [s]);
      assert Concat([s]) == s by { assert [s][1..] == []; }
      content := content + s;
      Writes := Writes + [s];
    }
  }

  /**
   * `save_note(title, research_summary, business_data)`. When the summary
   * text is not a string, the header has already been written when
   * `TypeError` is raised, and the file keeps just those lines.
   */
  method SaveNote(title: string, researchSummary: Json, businessData: Json,
                  timestamp: string, created: string, dumps: Json -> string)
    returns (r: Result<string, NoteFailure>, f: NoteFile)
    ensures fresh(f) && f.Valid()
    ensures f.path == NoteFileName(title, timestamp)
    ensures r.Ok? <==> SummaryText(researchSummary).Some?
    ensures r.Ok? ==> r.value == f.path
    ensures r.Ok? ==> f.Writes == NoteWrites(title, created, SummaryText(researchSummary).value,
                                             Dumped(SourcesOf(researchSummary), dumps), dumps(businessData))
    ensures r.Ok? ==> f.content == NoteDocument(title, created, SummaryText(researchSummary).value,
                                                Dumped(SourcesOf(researchSummary), dumps), dumps(businessData))
    ensures r.Err? ==> f.Writes == HeaderWrites(title, created)
    ensures r.Err? ==> r.error == SummaryNotText(
      if researchSummary.JObject? then Lookup(researchSummary.members, "summary").value else researchSummary)
  {
    var filename := NoteFileName(title, timestamp);

    var summaryText := researchSummary;
    if researchSummary.JObject? {
      summaryText := match Lookup(researchSummary.members, "summary")
                     case Some(v) => v
                     case None => JString("");
    }

    f := new NoteFile.Open(filename);
    f.Write("# " + title + "\n\n");
    f.Write("Created: " + created + "\n\n");
    f.Write("## Research Summary\n\n");
    assert f.Writes == HeaderWrites(title, created);
    if !summaryText.JString? {
      r := Err(SummaryNotText(summaryText));
      return;
    }
    assert SummaryText(researchSummary) == Some(summaryText.s);
    f.Write(summaryText.s + "\n\n");
    ghost var head := f.Writes;
    assert head == HeaderWrites(title, created) + [summaryText.s + "\n\n"];

    ghost var sources := Dumped(SourcesOf(researchSummary), dumps);
    if researchSummary.JObject? && Lookup(researchSummary.members, "sources").Some? {
      ghost var w := f.Writes;
      f.Write("## Sources\n\n");
      f.Write("```json\n");
      f.Write(dumps(Lookup(researchSummary.members, "sources").value));
      f.Write("\n```\n\n");
      AppendFour(w, "## Sources\n\n", "```json\n", sources.value, "\n```\n\n");
      assert f.Writes == head + ["## Sources\n\n", "```json\n", sources.value, "\n```\n\n"];
    } else {
      assert sources == None;
    }
    ghost var middle := f.Writes;
    ghost var mid := if sources.Some? then ["## Sources\n\n", "```json\n", sources.value, "\n```\n\n"] else [];
    assert middle == head + mid;

    f.Write("## Business Data\n\n");
    f.Write("```json\n");
    f.Write(dumps(businessData));
    f.Write("\n```\n");
    AppendFour(middle, "## Business Data\n\n", "```json\n", dumps(businessData), "\n```\n");
    assert f.Writes == middle + ["## Business Data\n\n", "```json\n", dumps(businessData), "\n```\n"];
    assert f.Writes == NoteWrites(title, created, summaryText.s, sources, dumps(businessData));
    r := Ok(filename);
  }
}
