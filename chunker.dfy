/**
 * Splitting the corpus into stories and each story into overlapping chunks,
 * the first half of the indexing command (setup_database in app.py).
 *
 * A story starts at the first line holding exactly its title. It ends where
 * the next title's line starts (the last story ends at the "*** END OF"
 * marker); when that closing marker is missing the story runs to the end of
 * the text. A story is cut into windows of ChunkSize characters every Step
 * characters; each window is stripped of surrounding whitespace and kept only
 * when more than MinChunk characters remain.
 */
module Chunker {
  import opened Wrappers
  import opened PyText

  const ChunkSize: nat := 1000
  const Overlap: nat := 200
  const Step: nat := ChunkSize - Overlap
  const MinChunk: nat := 100
  const EndMarker: string := "*** END OF"

  /** The titles the indexing command splits the corpus by, in corpus order. */
  const Stories: seq<string> := [
    "The Blue Cross", "The Secret Garden", "The Queer Feet", "The Flying Stars",
    "The Invisible Man", "The Honour of Israel Gow", "The Wrong Shape",
    "The Sins of Prince Saradine", "The Hammer of God", "The Eye of Apollo",
    "The Sign of the Broken Sword", "The Three Tools of Death"
  ]

  /** A chunk's metadata dictionary: {"story": title}. */
  type Metadata = map<string, string>

  /** A story's span in the corpus, text[start:end]. */
  datatype Bounds = Bounds(start: nat, end: nat)

  /** One retained chunk: what is appended to all_chunks, all_ids and all_metas. */
  datatype Entry = Entry(chunk: string, id: string, meta: Metadata)

  /** Where a chunk comes from: the index of its title and its offset inside that story. */
  datatype Origin = Origin(story: nat, offset: nat)

  /** The line that opens a story: its title alone on a line. */
  function Marker(title: string): string
  {
    "\n" + title + "\n"
  }

  /** What closes story i: the next title's line, or the end-of-book marker after the last title. */
  function EndPattern(titles: seq<string>, i: nat): string
    requires i < |titles|
  {
    if i < |titles| - 1 then Marker(titles[i + 1]) else EndMarker
  }

  /**
   * The span of story i, or None when its title line is not in the text.
   * The end is the first closing marker, clamped to the start when that marker
   * comes first (Python's text[start:end] is then empty), and the end of the
   * text when there is no closing marker.
   */
  function Span(text: string, titles: seq<string>, i: nat): (r: Option<Bounds>)
    requires i < |titles|
    ensures r.None? <==> Absent(text, Marker(titles[i]))
    ensures r.Some? ==> r.value.start <= r.value.end <= |text|
    ensures r.Some? ==> IsFirstOccurrence(text, Marker(titles[i]), r.value.start)
    ensures r.Some? && Absent(text, EndPattern(titles, i)) ==> r.value.end == |text|
    ensures forall e :: r.Some? && IsFirstOccurrence(text, EndPattern(titles, i), e) ==>
      r.value.end == if e < r.value.start then r.value.start else e
  {
    var start := Find(text, Marker(titles[i]));
    if start == -1 then None
    else
      var end := Find(text, EndPattern(titles, i));
      if end == -1 then Some(Bounds(start, |text|))
      else Some(Bounds(start, if end < start then start else end))
  }

  /** The text of story i, text[start:end] (or text[start:]), or None when its title is missing. */
  function StoryAt(text: string, titles: seq<string>, i: nat): Option<string>
    requires i < |titles|
  {
    match Span(text, titles, i)
    case None => None
    case Some(b) => Some(text[b.start..b.end])
  }

  /** The corpus split into stories, one per title. */
  function SplitStories(text: string, titles: seq<string>): (r: seq<Option<string>>)
    ensures |r| == |titles|
  {
    seq(|titles|, i requires 0 <= i < |titles| => StoryAt(text, titles, i))
  }

  /** The raw window story[j:j + ChunkSize], with Python's clamping of slice bounds. */
  function Window(story: string, j: nat): string
  {
    story[Min(j, |story|)..Min(j + ChunkSize, |story|)]
  }

  /** Window j lies in the story and keeps more than MinChunk characters once stripped. */
  predicate Kept(story: string, j: nat)
  {
    j < |story| && |Strip(Window(story, j))| > MinChunk
  }

  /** The offsets j, j + Step, ... below |story| whose windows are kept, in order. */
  function KeptFrom(story: string, j: nat): seq<nat>
    decreases |story| - j
  {
    if j >= |story| then []
    else (if Kept(story, j) then [j] else []) + KeptFrom(story, j + Step)
  }

  /** The kept offsets of a story; none when its title is missing. */
  function Offsets(story: Option<string>): seq<nat>
  {
    match story
    case None => []
    case Some(s) => KeptFrom(s, 0)
  }

  /** Origins of the chunks of story i at the given offsets. */
  function OriginsOf(i: nat, offsets: seq<nat>): (r: seq<Origin>)
    ensures |r| == |offsets|
    ensures forall m :: 0 <= m < |r| ==> r[m] == Origin(i, offsets[m])
  {
    seq(|offsets|, m requires 0 <= m < |offsets| => Origin(i, offsets[m]))
  }

  /** The origin names a located story and a window inside it. */
  predicate ValidOrigin(stories: seq<Option<string>>, o: Origin)
  {
    o.story < |stories| && stories[o.story].Some? && o.offset < |stories[o.story].value|
  }

  /** The kept offsets of every story. */
  function AllOffsets(stories: seq<Option<string>>): (r: seq<seq<nat>>)
    ensures |r| == |stories|
  {
    seq(|stories|, i requires 0 <= i < |stories| => Offsets(stories[i]))
  }

  /** The origins of all chunks of the first n stories, in the order they are appended. */
  function OriginsUpTo(offsets: seq<seq<nat>>, n: nat): seq<Origin>
    requires n <= |offsets|
  {
    if n == 0 then []
    else OriginsUpTo(offsets, n - 1) + OriginsOf(n - 1, offsets[n - 1])
  }

  /** Which title and which offset each chunk comes from, in the order the chunks are appended. */
  function Origins(text: string, titles: seq<string>): seq<Origin>
  {
    OriginsUpTo(AllOffsets(SplitStories(text, titles)), |titles|)
  }

  /** title.lower().replace(' ', '_') */
  function Slug(title: string): string
  {
    ReplaceChar(Lower(title), ' ', '_')
  }

  /** The id of the chunk of `title` at offset j. */
  function ChunkId(title: string, j: nat): string
  {
    Slug(title) + "_" + Decimal(j)
  }

  /** The entry the window at offset j of `story` produces. */
  function MakeEntry(title: string, story: string, j: nat): Entry
  {
    Entry(Strip(Window(story, j)), ChunkId(title, j), map["story" := title])
  }

  /** The entry the origin o stands for. */
  function EntryAt(titles: seq<string>, stories: seq<Option<string>>, o: Origin): Entry
    requires |titles| == |stories| && o.story < |stories| && stories[o.story].Some?
  {
    MakeEntry(titles[o.story], stories[o.story].value, o.offset)
  }

  /** The entries of one story, one per offset. */
  function StoryEntries(title: string, story: string, offsets: seq<nat>): seq<Entry>
  {
    seq(|offsets|, m requires 0 <= m < |offsets| => MakeEntry(title, story, offsets[m]))
  }

  /** The entries of one story; none when its title is missing. */
  function EntriesOf(title: string, story: Option<string>): (r: seq<Entry>)
    ensures |r| == |Offsets(story)|
  {
    match story
    case None => []
    case Some(s) => StoryEntries(title, s, KeptFrom(s, 0))
  }

  /** The entries of every story, title by title. */
  function AllEntries(titles: seq<string>, stories: seq<Option<string>>): (r: seq<seq<Entry>>)
    requires |titles| == |stories|
    ensures |r| == |titles|
  {
    seq(|titles|, i requires 0 <= i < |titles| => EntriesOf(titles[i], stories[i]))
  }

  /** The entries of the first n stories, in the order they are appended. */
  function EntriesUpTo(parts: seq<seq<Entry>>, n: nat): seq<Entry>
    requires n <= |parts|
  {
    if n == 0 then [] else EntriesUpTo(parts, n - 1) + parts[n - 1]
  }

  /** Everything the chunking loops produce, as one list of entries. */
  function Chunks(text: string, titles: seq<string>): seq<Entry>
  {
    EntriesUpTo(AllEntries(titles, SplitStories(text, titles)), |titles|)
  }

  /** The three parallel lists hold `entries`, position by position. */
  predicate ListsMatch(chunks: seq<string>, ids: seq<string>, metas: seq<Metadata>, entries: seq<Entry>)
  {
    |chunks| == |entries| && |ids| == |entries| && |metas| == |entries|
    && forall k :: 0 <= k < |entries| ==> entries[k] == Entry(chunks[k], ids[k], metas[k])
  }

  /**
   * The story-splitting and chunking loops of the indexing command: all_chunks,
   * all_ids and all_metas are parallel lists that hold, position by position,
   * the entries of Chunks (title order, then offset order).
   */
  method SplitIntoChunks(text: string, titles: seq<string>)
    returns (allChunks: seq<string>, allIds: seq<string>, allMetas: seq<Metadata>)
    ensures |allChunks| == |allIds| == |allMetas| == |Chunks(text, titles)|
    ensures forall k :: 0 <= k < |allChunks| ==>
      Chunks(text, titles)[k] == Entry(allChunks[k], allIds[k], allMetas[k])
  {
    ghost var stories := SplitStories(text, titles);
    ghost var parts := AllEntries(titles, stories);
    allChunks, allIds, allMetas := [], [], [];
    for i := 0 to |titles|
      invariant ListsMatch(allChunks, allIds, allMetas, EntriesUpTo(parts, i))
    {
      var title := titles[i];
      var start := Find(text, Marker(title));
      if start == -1 {
        StoryMissing(text, titles, i);
        continue;
      }
      var end := if i < |titles| - 1 then Find(text, Marker(titles[i + 1])) else Find(text, EndMarker);
      var storyText := if end != -1 then Slice(text, start, end) else text[start..];
      StoryFound(text, titles, i, start, end, storyText);
      allChunks, allIds, allMetas := AppendStoryChunks(title, storyText, allChunks, allIds, allMetas,
                                                       EntriesUpTo(parts, i));
    }
  }

  /**
   * The inner loop of the indexing command for one story: the window at every
   * offset 0, Step, 2 * Step, ... below |storyText| is stripped and, when more
   * than MinChunk characters remain, appended with its id and metadata.
   */
  method AppendStoryChunks(title: string, storyText: string,
                           chunks: seq<string>, ids: seq<string>, metas: seq<Metadata>,
                           ghost done: seq<Entry>)
    returns (allChunks: seq<string>, allIds: seq<string>, allMetas: seq<Metadata>)
    requires ListsMatch(chunks, ids, metas, done)
    ensures ListsMatch(allChunks, allIds, allMetas, done + StoryEntries(title, storyText, KeptFrom(storyText, 0)))
  {
    allChunks, allIds, allMetas := chunks, ids, metas;
    ghost var offsets: seq<nat> := [];
    var j := 0;
    while j < |storyText|
      invariant offsets + KeptFrom(storyText, j) == KeptFrom(storyText, 0)
      invariant ListsMatch(allChunks, allIds, allMetas, done + StoryEntries(title, storyText, offsets))
      decreases |storyText| - j
    {
      var chunk := Strip(storyText[j..Min(j + ChunkSize, |storyText|)]);
      KeptFromStep(storyText, j);
      if |chunk| > MinChunk {
        var id := Slug(title) + "_" + Decimal(j);
        var meta := map["story" := title];
        StoryEntriesAppend(title, storyText, offsets, j);
        AppendAssoc(done, StoryEntries(title, storyText, offsets), [Entry(chunk, id, meta)]);
        AppendAssoc(offsets, [j], KeptFrom(storyText, j + Step));
        ListsMatchAppend(allChunks, allIds, allMetas, done + StoryEntries(title, storyText, offsets), chunk, id, meta);
        allChunks := allChunks + [chunk];
        allIds := allIds + [id];
        allMetas := allMetas + [meta];
        offsets := offsets + [j];
      } else {
        assert [] + KeptFrom(storyText, j + Step) == KeptFrom(storyText, j + Step);
      }
      j := j + Step;
    }
  }

  /** Story i's text, as the indexing command computes it with find and slicing. */
  lemma StoryByFind(text: string, titles: seq<string>, i: nat)
    requires i < |titles|
    ensures var start := Find(text, Marker(titles[i]));
            var end := if i < |titles| - 1 then Find(text, Marker(titles[i + 1])) else Find(text, EndMarker);
            SplitStories(text, titles)[i]
              == if start == -1 then None
                 else Some(if end != -1 then Slice(text, start, end) else text[start..])
  {
    assert SplitStories(text, titles)[i] == StoryAt(text, titles, i);
    var start := Find(text, Marker(titles[i]));
    var end := Find(text, EndPattern(titles, i));
    if start != -1 {
      var b := Span(text, titles, i).value;
      assert b.start == start;
      if end == -1 {
        assert b.end == |text|;
        assert text[b.start..b.end] == text[start..];
      } else if end < start {
        assert b.end == start;
        assert text[b.start..b.end] == [] == Slice(text, start, end);
      } else {
        assert b.end == end;
      }
    }
  }

  /** A story whose title line is missing adds no entries. */
  lemma StoryMissing(text: string, titles: seq<string>, i: nat)
    requires i < |titles| && Find(text, Marker(titles[i])) == -1
    ensures var parts := AllEntries(titles, SplitStories(text, titles));
            EntriesUpTo(parts, i + 1) == EntriesUpTo(parts, i)
  {
    StoryByFind(text, titles, i);
    var parts := AllEntries(titles, SplitStories(text, titles));
    assert parts[i] == [];
    assert EntriesUpTo(parts, i + 1) == EntriesUpTo(parts, i) + [];
  }

  /** A located story adds the entries of its kept windows. */
  lemma StoryFound(text: string, titles: seq<string>, i: nat, start: int, end: int, storyText: string)
    requires i < |titles| && start == Find(text, Marker(titles[i])) && start != -1
    requires end == if i < |titles| - 1 then Find(text, Marker(titles[i + 1])) else Find(text, EndMarker)
    requires 0 <= start <= |text| && end <= |text|
    requires storyText == if end != -1 then Slice(text, start, end) else text[start..]
    ensures var parts := AllEntries(titles, SplitStories(text, titles));
            EntriesUpTo(parts, i + 1)
              == EntriesUpTo(parts, i) + StoryEntries(titles[i], storyText, KeptFrom(storyText, 0))
  {
    StoryByFind(text, titles, i);
    var parts := AllEntries(titles, SplitStories(text, titles));
    assert SplitStories(text, titles)[i] == Some(storyText);
    assert parts[i] == StoryEntries(titles[i], storyText, KeptFrom(storyText, 0));
  }

  /** One step of the inner loop in terms of KeptFrom. */
  lemma KeptFromStep(story: string, j: nat)
    requires j < |story|
    ensures var chunk := Strip(story[j..Min(j + ChunkSize, |story|)]);
            KeptFrom(story, j) == (if |chunk| > MinChunk then [j] else []) + KeptFrom(story, j + Step)
  {
  }

  /** Appending one offset appends the entry at that offset. */
  lemma StoryEntriesAppend(title: string, story: string, offsets: seq<nat>, j: nat)
    requires j < |story|
    ensures StoryEntries(title, story, offsets + [j])
         == StoryEntries(title, story, offsets) + [Entry(Strip(story[j..Min(j + ChunkSize, |story|)]),
                                                         Slug(title) + "_" + Decimal(j), map["story" := title])]
  {
  }

  /**
   * Appending to a concatenation. A known fact of sequences, stated as a lemma
   * so that AppendStoryChunks uses it on opaque arguments: written there as an
   * assert over the concrete terms, the method goes past the resource limit.
   */
  lemma AppendAssoc<T>(a: seq<T>, b: seq<T>, c: seq<T>)
    ensures (a + b) + c == a + (b + c)
  {
  }

  lemma ListsMatchAppend(chunks: seq<string>, ids: seq<string>, metas: seq<Metadata>, entries: seq<Entry>,
                         c: string, id: string, m: Metadata)
    requires ListsMatch(chunks, ids, metas, entries)
    ensures ListsMatch(chunks + [c], ids + [id], metas + [m], entries + [Entry(c, id, m)])
  {
  }

  // ---------------------------------------------------------------------------
  // Properties of the chunking

  /** Two distinct multiples of Step are at least Step apart. */
  lemma MultiplesApart(a: nat, b: nat)
    requires a % Step == 0 && b % Step == 0 && a < b
    ensures a + Step <= b
  {
    assert Step == 800;
  }

  /**
   * The offsets kept from j0 on are exactly the multiples of Step at or after
   * j0 whose window is kept.
   */
  lemma {:induction false} KeptFromMembers(story: string, j0: nat)
    requires j0 % Step == 0
    decreases |story| - j0
    ensures forall x: nat :: x in KeptFrom(story, j0) <==> j0 <= x && x % Step == 0 && Kept(story, x)
  {
    if j0 < |story| {
      assert Step == 800;
      KeptFromMembers(story, j0 + Step);
      forall x: nat | j0 < x && x % Step == 0
        ensures j0 + Step <= x
      {
        MultiplesApart(j0, x);
      }
    }
  }

  /** Every kept offset from j on lies in [j, |story|). */
  lemma {:induction false} KeptFromBounds(story: string, j: nat)
    decreases |story| - j
    ensures forall k :: 0 <= k < |KeptFrom(story, j)| ==> j <= KeptFrom(story, j)[k] < |story|
  {
    if j < |story| {
      KeptFromBounds(story, j + Step);
    }
  }

  /** The offsets kept from j0 on are strictly increasing. */
  lemma {:induction false} KeptFromIncreasing(story: string, j0: nat)
    decreases |story| - j0
    ensures forall a, b :: 0 <= a < b < |KeptFrom(story, j0)| ==> KeptFrom(story, j0)[a] < KeptFrom(story, j0)[b]
  {
    if j0 < |story| {
      KeptFromIncreasing(story, j0 + Step);
      KeptFromBounds(story, j0 + Step);
    }
  }

  /** Consecutive raw windows share exactly Overlap characters. */
  lemma RawWindowsOverlap(story: string, j: nat)
    requires j + ChunkSize <= |story|
    ensures |Window(story, j)| == ChunkSize
    ensures Window(story, j)[Step..] == Window(story, j + Step)[..Overlap]
  {
    assert Window(story, j) == story[j..j + ChunkSize];
    assert Window(story, j + Step) == story[j + Step..Min(j + Step + ChunkSize, |story|)];
    assert story[j..j + ChunkSize][Step..] == story[j + Step..j + ChunkSize];
    assert story[j + Step..Min(j + Step + ChunkSize, |story|)][..Overlap] == story[j + Step..j + ChunkSize];
  }

  /** The origins of one story are its offsets, tagged with its index. */
  lemma OriginsOfMembers(i: nat, offsets: seq<nat>)
    ensures forall o: Origin :: o in OriginsOf(i, offsets) <==> o.story == i && o.offset in offsets
  {
    forall o: Origin | o.story == i && o.offset in offsets
      ensures o in OriginsOf(i, offsets)
    {
      var m :| 0 <= m < |offsets| && offsets[m] == o.offset;
      assert OriginsOf(i, offsets)[m] == o;
    }
  }

  /** entries[k] is the entry origins[k] stands for, at every position. */
  predicate Aligned(titles: seq<string>, stories: seq<Option<string>>, entries: seq<Entry>, origins: seq<Origin>)
    requires |titles| == |stories|
  {
    |entries| == |origins|
    && forall k :: 0 <= k < |origins| ==>
      ValidOrigin(stories, origins[k]) && entries[k] == EntryAt(titles, stories, origins[k])
  }

  lemma AlignedAppend(titles: seq<string>, stories: seq<Option<string>>,
                      e1: seq<Entry>, o1: seq<Origin>, e2: seq<Entry>, o2: seq<Origin>)
    requires |titles| == |stories|
    requires Aligned(titles, stories, e1, o1) && Aligned(titles, stories, e2, o2)
    ensures Aligned(titles, stories, e1 + e2, o1 + o2)
  {
    forall k | 0 <= k < |o1 + o2|
      ensures ValidOrigin(stories, (o1 + o2)[k]) && (e1 + e2)[k] == EntryAt(titles, stories, (o1 + o2)[k])
    {
      if k < |o1| {
        assert (o1 + o2)[k] == o1[k] && (e1 + e2)[k] == e1[k];
      } else {
        assert (o1 + o2)[k] == o2[k - |o1|] && (e1 + e2)[k] == e2[k - |e1|];
      }
    }
  }

  /** One story's entries line up with its origins. */
  lemma EntriesOfAligned(titles: seq<string>, stories: seq<Option<string>>, i: nat)
    requires |titles| == |stories| && i < |titles|
    ensures Aligned(titles, stories, EntriesOf(titles[i], stories[i]), OriginsOf(i, Offsets(stories[i])))
  {
    if stories[i].Some? {
      KeptFromBounds(stories[i].value, 0);
    }
  }

  /** The entries line up with their origins, position by position. */
  lemma {:induction false} EntriesMatchOrigins(titles: seq<string>, stories: seq<Option<string>>,
                                               parts: seq<seq<Entry>>, offsets: seq<seq<nat>>, n: nat)
    requires |titles| == |stories| && n <= |parts| && n <= |offsets|
    requires forall i :: 0 <= i < n ==> Aligned(titles, stories, parts[i], OriginsOf(i, offsets[i]))
    ensures Aligned(titles, stories, EntriesUpTo(parts, n), OriginsUpTo(offsets, n))
  {
    if n > 0 {
      EntriesMatchOrigins(titles, stories, parts, offsets, n - 1);
      AlignedAppend(titles, stories, EntriesUpTo(parts, n - 1), OriginsUpTo(offsets, n - 1),
                    parts[n - 1], OriginsOf(n - 1, offsets[n - 1]));
    }
  }

  /** The k-th chunk is the entry of the k-th origin. */
  lemma ChunksMatchOrigins(text: string, titles: seq<string>)
    ensures |Chunks(text, titles)| == |Origins(text, titles)|
    ensures forall k :: 0 <= k < |Origins(text, titles)| ==>
      ValidOrigin(SplitStories(text, titles), Origins(text, titles)[k])
      && Chunks(text, titles)[k] == EntryAt(titles, SplitStories(text, titles), Origins(text, titles)[k])
  {
    var stories := SplitStories(text, titles);
    var parts := AllEntries(titles, stories);
    var offsets := AllOffsets(stories);
    forall i | 0 <= i < |titles|
      ensures Aligned(titles, stories, parts[i], OriginsOf(i, offsets[i]))
    {
      EntriesOfAligned(titles, stories, i);
    }
    EntriesMatchOrigins(titles, stories, parts, offsets, |titles|);
  }

  /** A story's kept offsets are exactly the multiples of Step whose window is kept. */
  lemma OffsetsMembers(story: Option<string>)
    ensures forall x: nat :: x in Offsets(story) <==> story.Some? && x % Step == 0 && Kept(story.value, x)
  {
    if story.Some? {
      KeptFromMembers(story.value, 0);
    }
  }

  /** The origins of the first n stories are the kept offsets of those stories. */
  lemma {:induction false} OriginsUpToMembers(offsets: seq<seq<nat>>, n: nat)
    requires n <= |offsets|
    ensures forall o: Origin :: o in OriginsUpTo(offsets, n) <==> o.story < n && o.offset in offsets[o.story]
  {
    if n > 0 {
      OriginsUpToMembers(offsets, n - 1);
      OriginsOfMembers(n - 1, offsets[n - 1]);
    }
  }

  /**
   * Story i contributes a chunk at offset j exactly when its title line is in
   * the text, j is a multiple of Step below the story's length, and the window
   * at j keeps more than MinChunk characters once stripped.
   */
  lemma OriginsMembers(text: string, titles: seq<string>)
    ensures forall o: Origin :: o in Origins(text, titles) <==>
      o.story < |titles| && StoryAt(text, titles, o.story).Some?
      && o.offset % Step == 0 && Kept(StoryAt(text, titles, o.story).value, o.offset)
  {
    var stories := SplitStories(text, titles);
    OriginsUpToMembers(AllOffsets(stories), |titles|);
    forall o: Origin
      ensures o in Origins(text, titles) <==>
        o.story < |titles| && StoryAt(text, titles, o.story).Some?
        && o.offset % Step == 0 && Kept(StoryAt(text, titles, o.story).value, o.offset)
    {
      if o.story < |titles| {
        OffsetsMembers(stories[o.story]);
      }
    }
  }

  /** Title order first, then offset order. */
  predicate Precedes(a: Origin, b: Origin)
  {
    a.story < b.story || (a.story == b.story && a.offset < b.offset)
  }

  /** Every origin of the list precedes every later one. */
  predicate OrderedOrigins(os: seq<Origin>)
  {
    forall a, b :: 0 <= a < b < |os| ==> Precedes(os[a], os[b])
  }

  lemma OrderedAppend(o1: seq<Origin>, o2: seq<Origin>)
    requires OrderedOrigins(o1) && OrderedOrigins(o2)
    requires forall a, b :: 0 <= a < |o1| && 0 <= b < |o2| ==> Precedes(o1[a], o2[b])
    ensures OrderedOrigins(o1 + o2)
  {
    forall a, b | 0 <= a < b < |o1 + o2|
      ensures Precedes((o1 + o2)[a], (o1 + o2)[b])
    {
      if b < |o1| {
        assert (o1 + o2)[a] == o1[a] && (o1 + o2)[b] == o1[b];
      } else if a < |o1| {
        assert (o1 + o2)[a] == o1[a] && (o1 + o2)[b] == o2[b - |o1|];
      } else {
        assert (o1 + o2)[a] == o2[a - |o1|] && (o1 + o2)[b] == o2[b - |o1|];
      }
    }
  }

  /** The offsets are strictly increasing. */
  predicate Increasing(offsets: seq<nat>)
  {
    forall a, b :: 0 <= a < b < |offsets| ==> offsets[a] < offsets[b]
  }

  /** Increasing offsets give ordered origins. */
  lemma OriginsOfOrdered(i: nat, offsets: seq<nat>)
    requires Increasing(offsets)
    ensures OrderedOrigins(OriginsOf(i, offsets))
  {
  }

  /** A story's kept offsets are strictly increasing. */
  lemma OffsetsIncreasing(story: Option<string>)
    ensures Increasing(Offsets(story))
  {
    if story.Some? {
      KeptFromIncreasing(story.value, 0);
    }
  }

  /** The origins of the first n stories name stories below n. */
  lemma {:induction false} OriginsUpToStoriesBelow(offsets: seq<seq<nat>>, n: nat)
    requires n <= |offsets|
    ensures forall k :: 0 <= k < |OriginsUpTo(offsets, n)| ==> OriginsUpTo(offsets, n)[k].story < n
  {
    if n > 0 {
      OriginsUpToStoriesBelow(offsets, n - 1);
    }
  }

  /** Appending the origins of a later story keeps the list ordered. */
  lemma OrderedStep(before: seq<Origin>, i: nat, offsets: seq<nat>)
    requires OrderedOrigins(before)
    requires forall k :: 0 <= k < |before| ==> before[k].story < i
    requires Increasing(offsets)
    ensures OrderedOrigins(before + OriginsOf(i, offsets))
  {
    OriginsOfOrdered(i, offsets);
    OrderedAppend(before, OriginsOf(i, offsets));
  }

  lemma {:induction false} OriginsUpToOrdered(offsets: seq<seq<nat>>, n: nat)
    requires n <= |offsets|
    requires forall i :: 0 <= i < |offsets| ==> Increasing(offsets[i])
    ensures OrderedOrigins(OriginsUpTo(offsets, n))
  {
    if n > 0 {
      OriginsUpToOrdered(offsets, n - 1);
      OriginsUpToStoriesBelow(offsets, n - 1);
      OrderedStep(OriginsUpTo(offsets, n - 1), n - 1, offsets[n - 1]);
    }
  }

  /** Chunks are appended in title order and, within a story, in offset order. */
  lemma OriginsOrdered(text: string, titles: seq<string>)
    ensures forall a, b :: 0 <= a < b < |Origins(text, titles)| ==>
      Precedes(Origins(text, titles)[a], Origins(text, titles)[b])
  {
    var offsets := AllOffsets(SplitStories(text, titles));
    forall i | 0 <= i < |offsets|
      ensures Increasing(offsets[i])
    {
      OffsetsIncreasing(SplitStories(text, titles)[i]);
    }
    OriginsUpToOrdered(offsets, |titles|);
  }

  /** The k-th origin: a located story and a kept window at a multiple of Step. */
  lemma OriginAt(text: string, titles: seq<string>, k: nat)
    requires k < |Origins(text, titles)|
    ensures var o := Origins(text, titles)[k];
            o.story < |titles| && StoryAt(text, titles, o.story).Some?
            && o.offset % Step == 0 && Kept(StoryAt(text, titles, o.story).value, o.offset)
  {
    OriginsMembers(text, titles);
    assert Origins(text, titles)[k] in Origins(text, titles);
  }

  /** The k-th chunk is the entry of the k-th origin. */
  lemma ChunkAt(text: string, titles: seq<string>, k: nat)
    requires k < |Chunks(text, titles)|
    ensures |Origins(text, titles)| == |Chunks(text, titles)|
    ensures var o := Origins(text, titles)[k];
            ValidOrigin(SplitStories(text, titles), o)
            && Chunks(text, titles)[k] == EntryAt(titles, SplitStories(text, titles), o)
  {
    ChunksMatchOrigins(text, titles);
  }

  /** The entry of a kept window: its size bounds, id and metadata. */
  lemma KeptEntry(title: string, story: string, j: nat)
    requires Kept(story, j)
    ensures var e := MakeEntry(title, story, j);
            e.chunk == Strip(Window(story, j)) && MinChunk < |e.chunk| <= ChunkSize
            && e.id == ChunkId(title, j) && e.meta == map["story" := title]
  {
  }

  /** A window of the slice text[lo..hi] is a window of text that stops at hi. */
  lemma WindowOfSlice(text: string, lo: nat, hi: nat, j: nat)
    requires lo <= hi <= |text| && j < hi - lo
    ensures Window(text[lo..hi], j) == text[lo + j..Min(lo + j + ChunkSize, hi)]
  {
    var e := Min(j + ChunkSize, hi - lo);
    assert lo + e == Min(lo + j + ChunkSize, hi);
    forall m | 0 <= m < e - j
      ensures text[lo..hi][j..e][m] == text[lo + j..lo + e][m]
    {
    }
  }

  /**
   * The k-th chunk comes from a located story: it is the stripped window of
   * that story at an offset that is a multiple of Step, it has more than
   * MinChunk and at most ChunkSize characters, its id is the title's slug and
   * the offset, and its metadata names the title.
   */
  lemma ChunkFacts(text: string, titles: seq<string>, k: nat)
    requires k < |Chunks(text, titles)|
    ensures |Origins(text, titles)| == |Chunks(text, titles)|
    ensures var o := Origins(text, titles)[k];
            var c := Chunks(text, titles)[k];
            o.story < |titles| && StoryAt(text, titles, o.story).Some? && o.offset % Step == 0
            && o.offset < |StoryAt(text, titles, o.story).value|
            && c.chunk == Strip(Window(StoryAt(text, titles, o.story).value, o.offset))
            && MinChunk < |c.chunk| <= ChunkSize
            && c.id == ChunkId(titles[o.story], o.offset)
            && c.meta == map["story" := titles[o.story]]
  {
    ChunkAt(text, titles, k);
    OriginAt(text, titles, k);
    var o := Origins(text, titles)[k];
    var story := StoryAt(text, titles, o.story).value;
    assert SplitStories(text, titles)[o.story] == Some(story);
    KeptEntry(titles[o.story], story, o.offset);
  }

  /**
   * `chunk` is the stripped text of a window of the corpus that starts inside
   * the span of story o.story, at o.offset into it, and does not reach past
   * the span's end.
   */
  predicate FromSpan(text: string, titles: seq<string>, o: Origin, chunk: string)
  {
    o.story < |titles| && Span(text, titles, o.story).Some?
    && var b := Span(text, titles, o.story).value;
       b.start + o.offset < b.end
       && chunk == Strip(text[b.start + o.offset..Min(b.start + o.offset + ChunkSize, b.end)])
  }

  /**
   * The k-th chunk is the stripped text of a window that starts inside its
   * story's span and does not reach past the span's end: no chunk holds text
   * from outside [start, end) of its story.
   */
  lemma ChunkInSpan(text: string, titles: seq<string>, k: nat)
    requires k < |Chunks(text, titles)|
    ensures |Origins(text, titles)| == |Chunks(text, titles)|
    ensures FromSpan(text, titles, Origins(text, titles)[k], Chunks(text, titles)[k].chunk)
  {
    ChunkFacts(text, titles, k);
    StoryChunkInSpan(text, titles, Origins(text, titles)[k], Chunks(text, titles)[k].chunk);
  }

  /** The stripped window of a located story at an offset inside it comes from the story's span. */
  lemma StoryChunkInSpan(text: string, titles: seq<string>, o: Origin, chunk: string)
    requires o.story < |titles| && StoryAt(text, titles, o.story).Some?
    requires o.offset < |StoryAt(text, titles, o.story).value|
    requires chunk == Strip(Window(StoryAt(text, titles, o.story).value, o.offset))
    ensures FromSpan(text, titles, o, chunk)
  {
    var story := StoryAt(text, titles, o.story).value;
    StoryWindowInSpan(text, titles, o.story, o.offset);
    var b := Span(text, titles, o.story).value;
    StripOfEqual(Window(story, o.offset), text[b.start + o.offset..Min(b.start + o.offset + ChunkSize, b.end)], chunk);
  }

  /** A window of a located story is the slice of the corpus at that offset into the span, cut at the span's end. */
  lemma StoryWindowInSpan(text: string, titles: seq<string>, i: nat, j: nat)
    requires i < |titles| && StoryAt(text, titles, i).Some? && j < |StoryAt(text, titles, i).value|
    ensures Span(text, titles, i).Some?
    ensures var b := Span(text, titles, i).value;
            b.start + j < b.end
            && Window(StoryAt(text, titles, i).value, j) == text[b.start + j..Min(b.start + j + ChunkSize, b.end)]
  {
    var b := Span(text, titles, i).value;
    assert StoryAt(text, titles, i).value == text[b.start..b.end];
    WindowOfSlice(text, b.start, b.end, j);
  }

  /**
   * Stripping equal strings gives equal results. A known fact, stated as a
   * lemma so that StoryChunkInSpan rewrites under Strip without unfolding it
   * on the long slice terms, which keeps that proof within the resource limit.
   */
  lemma StripOfEqual(a: string, b: string, c: string)
    requires a == b && c == Strip(a)
    ensures c == Strip(b)
  {
  }

  // ---------------------------------------------------------------------------
  // Chunk ids

  /** Where the separator and the tail sit in a + [sep] + d. */
  lemma SeparatorAt(a: string, sep: char, d: string)
    ensures (a + [sep] + d)[|a|] == sep
    ensures forall i :: |a| < i < |a| + 1 + |d| ==> (a + [sep] + d)[i] == d[i - |a| - 1]
  {
  }

  /** A string that ends with a separator and a separator-free tail splits there uniquely. */
  lemma {:induction false} SplitAtLastSeparator(a: string, d1: string, b: string, d2: string, sep: char)
    requires sep !in d1 && sep !in d2
    requires a + [sep] + d1 == b + [sep] + d2
    ensures a == b && d1 == d2
  {
    var s := a + [sep] + d1;
    SeparatorAt(a, sep, d1);
    SeparatorAt(b, sep, d2);
    if |d1| != |d2| {
      assert false;
    }
    assert d1 == s[|s| - |d1|..] == d2;
    assert a == s[..|a|] == b;
  }

  /** An id determines the slug of its title and the offset of its window. */
  lemma ChunkIdInjective(t1: string, j1: nat, t2: string, j2: nat)
    requires ChunkId(t1, j1) == ChunkId(t2, j2)
    ensures Slug(t1) == Slug(t2) && j1 == j2
  {
    DecimalDigits(j1);
    DecimalDigits(j2);
    assert "_" == ['_'];
    SplitAtLastSeparator(Slug(t1), Decimal(j1), Slug(t2), Decimal(j2), '_');
    DecimalInjective(j1, j2);
  }

  /** Two different chunks of the same story have different ids. */
  lemma IdsDistinctWithinStory(text: string, titles: seq<string>, k1: nat, k2: nat)
    requires k1 < k2 < |Chunks(text, titles)|
    requires |Origins(text, titles)| == |Chunks(text, titles)|
    requires Origins(text, titles)[k1].story == Origins(text, titles)[k2].story
    ensures Chunks(text, titles)[k1].id != Chunks(text, titles)[k2].id
  {
    ChunkFacts(text, titles, k1);
    ChunkFacts(text, titles, k2);
    OriginsOrdered(text, titles);
    var o1 := Origins(text, titles)[k1];
    var o2 := Origins(text, titles)[k2];
    assert Precedes(o1, o2);
    if Chunks(text, titles)[k1].id == Chunks(text, titles)[k2].id {
      ChunkIdInjective(titles[o1.story], o1.offset, titles[o2.story], o2.offset);
    }
  }

  /** No two titles have the same slug. */
  predicate DistinctSlugs(titles: seq<string>)
  {
    forall i, j :: 0 <= i < j < |titles| ==> Slug(titles[i]) != Slug(titles[j])
  }

  /** When the titles' slugs differ, every chunk gets its own id. */
  lemma IdsDistinct(text: string, titles: seq<string>, k1: nat, k2: nat)
    requires DistinctSlugs(titles)
    requires k1 < k2 < |Chunks(text, titles)|
    ensures Chunks(text, titles)[k1].id != Chunks(text, titles)[k2].id
  {
    ChunkFacts(text, titles, k1);
    ChunkFacts(text, titles, k2);
    OriginsOrdered(text, titles);
    var o1 := Origins(text, titles)[k1];
    var o2 := Origins(text, titles)[k2];
    assert Precedes(o1, o2);
    if Chunks(text, titles)[k1].id == Chunks(text, titles)[k2].id {
      ChunkIdInjective(titles[o1.story], o1.offset, titles[o2.story], o2.offset);
      assert false;
    }
  }

  /** Slug keeps the length and lowers the character at each position (a space becomes '_'). */
  lemma SlugAt(title: string, i: nat)
    requires i < |title|
    ensures |Slug(title)| == |title|
    ensures Slug(title)[i] == if LowerChar(title[i]) == ' ' then '_' else LowerChar(title[i])
  {
    LowerPointwise(title);
    ReplaceCharPointwise(Lower(title), ' ', '_');
  }

  /**
   * Titles that differ in length or in their lower-cased fifth character have
   * distinct slugs.
   */
  lemma DistinctByKey(titles: seq<string>, keys: seq<(nat, char)>)
    requires |keys| == |titles|
    requires forall i :: 0 <= i < |titles| ==>
      4 < |titles[i]| && keys[i] == (|titles[i]|, LowerChar(titles[i][4])) && keys[i].1 != ' '
    requires forall i, j :: 0 <= i < j < |keys| ==> keys[i] != keys[j]
    ensures DistinctSlugs(titles)
  {
    forall i, j | 0 <= i < j < |titles|
      ensures Slug(titles[i]) != Slug(titles[j])
    {
      SlugAt(titles[i], 4);
      SlugAt(titles[j], 4);
    }
  }

  /** (length, lower-cased fifth character) of each of the twelve titles. */
  const StoryKeys: seq<(nat, char)> := [
    (14, 'b'), (17, 's'), (14, 'q'), (16, 'f'), (17, 'i'), (24, 'h'),
    (15, 'w'), (27, 's'), (17, 'h'), (17, 'e'), (28, 's'), (24, 't')
  ]

  /** StoryKeys lists each title's length and lower-cased fifth character. */
  lemma StoryKeysMatch()
    ensures |StoryKeys| == |Stories|
    ensures forall i :: 0 <= i < |Stories| ==>
      4 < |Stories[i]| && StoryKeys[i] == (|Stories[i]|, LowerChar(Stories[i][4])) && StoryKeys[i].1 != ' '
  {
    assert |Stories[0]| == 14 && Stories[0][4] == 'B';
    assert |Stories[1]| == 17 && Stories[1][4] == 'S';
    assert |Stories[2]| == 14 && Stories[2][4] == 'Q';
    assert |Stories[3]| == 16 && Stories[3][4] == 'F';
    assert |Stories[4]| == 17 && Stories[4][4] == 'I';
    assert |Stories[5]| == 24 && Stories[5][4] == 'H';
    assert |Stories[6]| == 15 && Stories[6][4] == 'W';
    assert |Stories[7]| == 27 && Stories[7][4] == 'S';
    assert |Stories[8]| == 17 && Stories[8][4] == 'H';
    assert |Stories[9]| == 17 && Stories[9][4] == 'E';
    assert |Stories[10]| == 28 && Stories[10][4] == 'S';
    assert |Stories[11]| == 24 && Stories[11][4] == 'T';
  }

  /**
   * The twelve titles have twelve different slugs: no two agree both in length
   * and in their fifth character.
   */
  lemma StoriesHaveDistinctSlugs()
    ensures DistinctSlugs(Stories)
  {
    StoryKeysMatch();
    assert forall i, j :: 0 <= i < j < |StoryKeys| ==> StoryKeys[i] != StoryKeys[j];
    DistinctByKey(Stories, StoryKeys);
  }

  /** Every chunk of the corpus, split by the fixed titles, gets its own id. */
  lemma StoryIdsDistinct(text: string)
    ensures forall k1, k2 :: 0 <= k1 < k2 < |Chunks(text, Stories)| ==>
      Chunks(text, Stories)[k1].id != Chunks(text, Stories)[k2].id
  {
    StoriesHaveDistinctSlugs();
    forall k1, k2 | 0 <= k1 < k2 < |Chunks(text, Stories)|
      ensures Chunks(text, Stories)[k1].id != Chunks(text, Stories)[k2].id
    {
      IdsDistinct(text, Stories, k1, k2);
    }
  }

  // ---------------------------------------------------------------------------
  // Missing titles

  /** A title whose line is not in the corpus contributes no chunk. */
  lemma MissingTitleHasNoChunks(text: string, titles: seq<string>, i: nat)
    requires i < |titles| && Absent(text, Marker(titles[i]))
    ensures forall k :: 0 <= k < |Origins(text, titles)| ==> Origins(text, titles)[k].story != i
  {
    forall k | 0 <= k < |Origins(text, titles)|
      ensures Origins(text, titles)[k].story != i
    {
      OriginAt(text, titles, k);
    }
  }

  /** The chunks of a story all name its title; so a missing title, when no other title equals it, is named by none. */
  lemma MissingTitleNamedByNoChunk(text: string, titles: seq<string>, i: nat)
    requires i < |titles| && Absent(text, Marker(titles[i]))
    requires forall j :: 0 <= j < |titles| && j != i ==> titles[j] != titles[i]
    ensures forall k :: 0 <= k < |Chunks(text, titles)| ==> Chunks(text, titles)[k].meta != map["story" := titles[i]]
  {
    forall k | 0 <= k < |Chunks(text, titles)|
      ensures Chunks(text, titles)[k].meta != map["story" := titles[i]]
    {
      ChunkFacts(text, titles, k);
      MissingTitleHasNoChunks(text, titles, i);
      var t := titles[Origins(text, titles)[k].story];
      assert map["story" := t]["story"] == t;
    }
  }

  /** An empty corpus holds no title line and yields no chunks. */
  lemma EmptyCorpusHasNoChunks(titles: seq<string>)
    ensures Chunks("", titles) == []
  {
    if Chunks("", titles) != [] {
      ChunkFacts("", titles, 0);
      assert false;
    }
  }
}
