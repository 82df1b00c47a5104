/**
 * The semantic-search tool (search_father_brown in app.py), without the
 * vector store: the number of stored chunks and the result of the similarity
 * query are inputs, and what is modelled is how the reply is put together
 * from them.
 */
module Search {
  import opened PyText
  import opened Chunker

  const NotSetUp: string := "Database not set up. " + "Please run: python3 app.py --setup"
  const NoPassages: string := "No relevant passages found."
  /** What separates two passages in the reply. */
  const Separator: string := "\n\n---\n\n"
  /** How many characters of a matching chunk a passage shows. */
  const PreviewLength: nat := 500
  /** The story name shown when a result carries no "story" metadata. */
  const UnknownStory: string := "Unknown"

  /**
   * The part of a query result the tool reads: one list of documents and one
   * list of metadata per query text (the tool sends a single query text).
   */
  datatype QueryResult = QueryResult(documents: seq<seq<string>>, metadatas: seq<seq<Metadata>>)

  /** meta.get('story', 'Unknown') */
  function StoryOf(meta: Metadata): string
  {
    if "story" in meta then meta["story"] else UnknownStory
  }

  /** The line that introduces a passage from `story`. */
  function Header(story: string): string
  {
    "From '" + story + "':\n"
  }

  /** One passage: the story it comes from, then the first PreviewLength characters of the chunk, then "...". */
  function Passage(doc: string, meta: Metadata): string
  {
    Header(StoryOf(meta)) + Prefix(doc, PreviewLength) + "..."
  }

  /** zip(docs, metas) turned into passages: one per pair, as many as the shorter list has. */
  function Passages(docs: seq<string>, metas: seq<Metadata>): seq<string>
  {
    seq(Min(|docs|, |metas|), k requires 0 <= k < Min(|docs|, |metas|) => Passage(docs[k], metas[k]))
  }

  /** The query came back with at least one document for the query text. */
  predicate HasDocuments(results: QueryResult)
  {
    results.documents != [] && results.documents[0] != []
  }

  /** The passage-building loop: the k-th passage is made from the k-th document and its metadata. */
  method FormatPassages(docs: seq<string>, metas: seq<Metadata>) returns (passages: seq<string>)
    ensures |passages| == Min(|docs|, |metas|)
    ensures forall k :: 0 <= k < |passages| ==> passages[k] == Passage(docs[k], metas[k])
  {
    passages := [];
    var n := Min(|docs|, |metas|);
    for i := 0 to n
      invariant |passages| == i
      invariant forall k :: 0 <= k < i ==> passages[k] == Passage(docs[k], metas[k])
    {
      var story := StoryOf(metas[i]);
      passages := passages + ["From '" + story + "':\n" + Prefix(docs[i], PreviewLength) + "..."];
    }
  }

  /**
   * The tool's reply, given the number of stored chunks and what the query
   * returned: the set-up hint for an empty store, a fixed message when nothing
   * matched, and otherwise the passages in result order, separated by Separator.
   */
  method SearchFatherBrown(count: nat, results: QueryResult) returns (reply: string)
    requires count > 0 && HasDocuments(results) ==> results.metadatas != []
    ensures count == 0 ==> reply == NotSetUp
    ensures count > 0 && !HasDocuments(results) ==> reply == NoPassages
    ensures count > 0 && HasDocuments(results) ==>
      reply == Join(Passages(results.documents[0], results.metadatas[0]), Separator)
  {
    if count == 0 {
      return NotSetUp;
    }
    if results.documents == [] || results.documents[0] == [] {
      return NoPassages;
    }
    var passages := FormatPassages(results.documents[0], results.metadatas[0]);
    assert passages == Passages(results.documents[0], results.metadatas[0]);
    reply := Join(passages, Separator);
  }

  /**
   * A passage can be taken apart again: it starts with the header of its story,
   * ends with "...", and what lies between is the start of the chunk, all of
   * it when the chunk is at most PreviewLength characters long.
   */
  lemma PassageParts(doc: string, meta: Metadata)
    ensures var p := Passage(doc, meta);
            var h := Header(StoryOf(meta));
            |p| == |h| + Min(PreviewLength, |doc|) + 3
            && p[..|h|] == h
            && p[|h|..|p| - 3] <= doc
            && p[|p| - 3..] == "..."
            && (|doc| <= PreviewLength ==> p[|h|..|p| - 3] == doc)
  {
    var p := Passage(doc, meta);
    var h := Header(StoryOf(meta));
    var pre := Prefix(doc, PreviewLength);
    assert p == h + pre + "...";
    assert p[|h|..|p| - 3] == pre;
    assert p[|p| - 3..] == "...";
  }

  /** Without "story" metadata a passage is attributed to "Unknown". */
  lemma PassageOfUnknownStory(doc: string, meta: Metadata)
    requires "story" !in meta
    ensures Header(UnknownStory) <= Passage(doc, meta)
  {
  }

  /**
   * The three kinds of reply cannot be mistaken for one another: a reply with
   * passages starts with "From '", which neither fixed message does.
   */
  lemma RepliesDistinguishable(results: QueryResult)
    requires HasDocuments(results) && results.metadatas != [] && results.metadatas[0] != []
    ensures var reply := Join(Passages(results.documents[0], results.metadatas[0]), Separator);
            "From '" <= reply && !("From '" <= NotSetUp) && !("From '" <= NoPassages)
            && NotSetUp != NoPassages
  {
    var docs, metas := results.documents[0], results.metadatas[0];
    var parts := Passages(docs, metas);
    assert parts[0] <= Join(parts, Separator);
    assert parts[0] == Header(StoryOf(metas[0])) + Prefix(docs[0], PreviewLength) + "...";
    assert "From '" <= Header(StoryOf(metas[0]));
    assert NotSetUp[0] == 'D' && NoPassages[0] == 'N';
  }

  /** A single result gives a reply that is its one passage, with no separator. */
  lemma OneResultOnePassage(doc: string, meta: Metadata)
    ensures Join(Passages([doc], [meta]), Separator) == Passage(doc, meta)
  {
    assert Passages([doc], [meta]) == [Passage(doc, meta)];
  }
}
