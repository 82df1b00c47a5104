# Father Brown assistant: the deterministic core, in Dafny

The application is a chat agent with three tools:
- a joke fetcher;
- a semantic search over G. K. Chesterton's Father Brown stories;
- a calculator.

It also has an indexing command that splits the book into stories and chunks and loads them into a vector store.

This project models the parts of `05_src/assignment_2/app.py` that are plain text and list processing, and proves what they promise:

- `Chunker` (chunker.dfy): the indexing command's story splitting and chunking.
  - Each title's line is found with `str.find`, and the story runs to the next title's line.
  - Each story is cut into 1000-character windows every 800 characters.
  - Each window is stripped and kept only when more than 100 characters remain.
  - Each kept window gets an id `slug_offset` and the metadata `{"story": title}`.
- `Indexing` (indexing.dfy): the batching loop that hands the three parallel lists to the store 50 entries at a time. It also has the composition of both halves of the indexing command.
- `Calculator` (calculator.dfy): the allow-list gate in front of `eval`.
  - Words are scanned as `re.findall(r'[a-zA-Z_]+', ...)`.
  - The first word whose lower-case form is not one of the fourteen names is refused.
- `Search` (search.dfy): how the search tool builds its reply from the store's count and query result.
- `Chat` (chat.dfy): how the chat handler turns the UI history into agent messages.
- `Joke` (joke.dfy): how the joke tool builds its reply from the service's answer.
- `PyText` (pytext.dfy): the Python string built-ins the code relies on:
  - `str.find`;
  - `str.strip`, using the `str.isspace` set by code point;
  - `str.lower` on ASCII;
  - a one-character `str.replace`;
  - `f"{n}"` for `n >= 0`;
  - `str.join`;
  - the slices `s[a:b]` and `s[:n]`.
- `Wrappers` (wrappers.dfy): an `Option` type.

The loops of the source are methods with loop invariants, proved against specification functions:
- `SplitIntoChunks` and `AppendStoryChunks` against `Chunks`;
- `AddInBatches` against `BatchAt` and the `Added*` functions;
- `Calculate` against `Words`;
- `FormatPassages` against `Passage`;
- `BuildMessages` against `Converted`.

The properties are proved as lemmas about those functions.

## Model

| member | source | states |
|---|---|---|
| PyText.Find | 05_src/assignment_2/app.py:154 | `str.find` gives -1 exactly when the pattern occurs nowhere; otherwise it gives the least index at which it occurs |
| PyText.StripRemovesOnlySpace | 05_src/assignment_2/app.py:164 | `strip` removes only whitespace, from both ends. The string is the removed prefix, the result and the removed suffix in order. A non-empty result neither starts nor ends with whitespace |
| PyText.LowerPointwise | 05_src/assignment_2/app.py:167 | `lower` maps every character through the ASCII lower-casing and keeps the length |
| PyText.ReplaceCharPointwise | 05_src/assignment_2/app.py:167 | `replace(' ', '_')` changes exactly the spaces and keeps every other character |
| PyText.DecimalRoundTrip | 05_src/assignment_2/app.py:167 | `f"{j}"` is a string of digits, and reading it back as a decimal gives `j` |
| PyText.DecimalInjective | 05_src/assignment_2/app.py:167 | different offsets print differently |
| PyText.Prefix | 05_src/assignment_2/app.py:63 | `doc[:500]` is a prefix of `doc` of length `min(500, len(doc))` |
| PyText.JoinAppend | 05_src/assignment_2/app.py:65 | joining one more part appends the separator and that part |
| PyText.Strip | 05_src/assignment_2/app.py:164 | `str.strip`: the result is never longer than the string; StripRemovesOnlySpace states what is removed |
| PyText.Lower | 05_src/assignment_2/app.py:167 | `str.lower` keeps the length; LowerPointwise states it character by character |
| PyText.ReplaceChar | 05_src/assignment_2/app.py:167 | `str.replace` of one character keeps the length; ReplaceCharPointwise states which characters change |
| PyText.Decimal | 05_src/assignment_2/app.py:167 | `f"{j}"` is never empty; DecimalRoundTrip and DecimalInjective state that it reads back and that different offsets differ |
| PyText.Slice | 05_src/assignment_2/app.py:159 | `text[a:b]` for `0 <= a`, `b <= len(text)`: empty when `b < a`; WindowOfSlice and StoryByFind state how the model uses it |
| PyText.Join | 05_src/assignment_2/app.py:65 | `sep.join(parts)`; JoinAppend states how one more part extends it |
| Chunker.StoryAt | 05_src/assignment_2/app.py:159 | the story text is the span's slice of the corpus, None when the title line is missing; StoryByFind ties it to the source's `find` calls |
| Chunker.Window | 05_src/assignment_2/app.py:164 | `story_text[j:j + 1000]`; RawWindowsOverlap and WindowOfSlice state its length, its overlap and its place in the corpus |
| Chunker.Slug | 05_src/assignment_2/app.py:167 | `title.lower().replace(' ', '_')`; SlugAt states it character by character, StoriesHaveDistinctSlugs that the twelve slugs differ |
| Chunker.ChunkId | 05_src/assignment_2/app.py:167 | `f"{slug}_{j}"`; ChunkIdInjective states that the id determines slug and offset |
| Chunker.MakeEntry | 05_src/assignment_2/app.py:164-168 | the chunk, id and metadata appended for the window at `j`; KeptEntry states their shape |
| Chunker.Chunks | 05_src/assignment_2/app.py:150-168 | the three lists the loops build, as one list of entries; ChunksMatchOrigins, OriginsMembers, OriginsOrdered and ChunkFacts characterize it |
| Chunker.Span | 05_src/assignment_2/app.py:154-159 | A story has a span exactly when its title line occurs. The span starts at the first occurrence of that line. It ends at the first occurrence of the next title's line, or of `*** END OF` for the last title. It is empty when that marker comes first, and it reaches the end of the text when there is no marker |
| Chunker.StoryByFind | 05_src/assignment_2/app.py:154-159 | the story text is what `find` and the slice `text[start:end]` / `text[start:]` compute, and None when `start == -1` |
| Chunker.StoryMissing | 05_src/assignment_2/app.py:155-156 | a title whose line is not found adds no entry to the lists |
| Chunker.StoryFound | 05_src/assignment_2/app.py:158-168 | a found title adds the entries of its story's kept windows, after those of the earlier titles |
| Chunker.SplitIntoChunks | 05_src/assignment_2/app.py:150-168 | `all_chunks`, `all_ids` and `all_metas` have equal length. Position by position they hold the entries of `Chunks`: title order, then offset order |
| Chunker.AppendStoryChunks | 05_src/assignment_2/app.py:162-168 | the inner loop appends, to the three lists, the chunk, id and metadata of every kept window of the story in offset order, and nothing else |
| Chunker.KeptFromMembers | 05_src/assignment_2/app.py:163-165 | the kept offsets from `j0` on are exactly the multiples of 800 at or after `j0` whose window is kept |
| Chunker.OffsetsMembers | 05_src/assignment_2/app.py:163-165 | a story's kept offsets are exactly the multiples of 800 below its length whose stripped window has more than 100 characters. A missing story has none |
| Chunker.KeptFromBounds | 05_src/assignment_2/app.py:163 | every kept offset lies in `[j, len(story_text))` |
| Chunker.KeptFromIncreasing | 05_src/assignment_2/app.py:163 | kept offsets are strictly increasing |
| Chunker.RawWindowsOverlap | 05_src/assignment_2/app.py:162-164 | a full raw window has 1000 characters, and its last 200 characters are the first 200 of the next window |
| Chunker.ChunksMatchOrigins | 05_src/assignment_2/app.py:152-168 | the k-th chunk is the entry of the k-th origin (title index and offset), and that origin names a found story and an offset inside it |
| Chunker.OriginsMembers | 05_src/assignment_2/app.py:152-165 | Story i contributes a chunk at offset j exactly when three things hold: its title line is found, j is a multiple of 800, and the window at j is kept |
| Chunker.OriginsOrdered | 05_src/assignment_2/app.py:152-168 | chunks appear in title order, and within a title in increasing offset order |
| Chunker.OriginAt | 05_src/assignment_2/app.py:152-165 | the k-th origin names a found story and a kept window at a multiple of 800 |
| Chunker.ChunkAt | 05_src/assignment_2/app.py:164-168 | the k-th chunk is the entry made from the k-th origin's window |
| Chunker.KeptEntry | 05_src/assignment_2/app.py:164-168 | The entry of a kept window is the stripped window, with more than 100 and at most 1000 characters. Its id is `slug_offset` and its metadata is `{"story": title}` |
| Chunker.WindowOfSlice | 05_src/assignment_2/app.py:159-164 | a window of `text[lo:hi]` is the slice of `text` at the same offset past `lo`, cut at `hi` |
| Chunker.ChunkFacts | 05_src/assignment_2/app.py:163-168 | The k-th chunk comes from a found story, at an offset that is a multiple of 800 below the story's length. It is that window stripped, with a length in (100, 1000]. Its id is the title's slug and the offset, and its metadata names the title |
| Chunker.StoryWindowInSpan | 05_src/assignment_2/app.py:158-164 | a window of a found story is the corpus slice at that offset into the span, cut at the span's end |
| Chunker.StoryChunkInSpan | 05_src/assignment_2/app.py:158-164 | the stripped window of a found story is the stripped text of a slice of the corpus that lies inside the story's span |
| Chunker.ChunkInSpan | 05_src/assignment_2/app.py:158-164 | every chunk is the stripped text of a window that starts inside its story's span `[start, end)` and does not reach past `end` |
| Chunker.SplitAtLastSeparator | 05_src/assignment_2/app.py:167 | a string that ends in `_` followed by a tail without `_` splits there in only one way |
| Chunker.ChunkIdInjective | 05_src/assignment_2/app.py:167 | an id determines the slug of its title and the offset of its window |
| Chunker.IdsDistinctWithinStory | 05_src/assignment_2/app.py:167 | two different chunks of the same story have different ids |
| Chunker.IdsDistinct | 05_src/assignment_2/app.py:167 | when no two titles share a slug, all ids are pairwise distinct |
| Chunker.StoriesHaveDistinctSlugs | 05_src/assignment_2/app.py:131-136 | no two of the twelve titles have the same slug `title.lower().replace(' ', '_')` |
| Chunker.StoryIdsDistinct | 05_src/assignment_2/app.py:131-168 | splitting any text by the twelve titles gives every chunk its own id |
| Chunker.SlugAt | 05_src/assignment_2/app.py:167 | the slug keeps the title's length. Each character is lower-cased, and a space becomes `_` |
| Chunker.MissingTitleHasNoChunks | 05_src/assignment_2/app.py:154-156 | a title whose line is absent contributes no chunk, and so no id and no metadata |
| Chunker.MissingTitleNamedByNoChunk | 05_src/assignment_2/app.py:154-168 | no chunk's metadata names a missing title, unless another title is equal to it |
| Chunker.EmptyCorpusHasNoChunks | 05_src/assignment_2/app.py:150-168 | an empty text yields no chunks |
| Indexing.AddInBatches | 05_src/assignment_2/app.py:171-178 | There are `ceil(n / 50)` calls, and call k carries the slices `[50k, min(50k + 50, n))` of the three lists. Together the calls add every id, document and metadata exactly once, in list order |
| Indexing.NextBatch | 05_src/assignment_2/app.py:172 | a batch that starts below `n` is one of the `ceil(n / 50)` batches, and the next batch starts 50 later |
| Indexing.BatchesCovered | 05_src/assignment_2/app.py:172 | the first batch start at or past `n` is batch number `ceil(n / 50)` |
| Indexing.BatchSizes | 05_src/assignment_2/app.py:172-173 | Every batch holds between 1 and 50 entries within `[0, n)`. Every batch but the last holds exactly 50, and each batch ends where the next starts |
| Indexing.LastBatchEndsAtN | 05_src/assignment_2/app.py:172-173 | the last batch ends at `n`, so the batches reach every entry |
| Indexing.NoChunksNoCalls | 05_src/assignment_2/app.py:172 | there are no batches exactly when there are no chunks |
| Indexing.AddedAppend | 05_src/assignment_2/app.py:174-178 | one more `add` call extends what has been added by that call's ids, documents and metadatas |
| Indexing.SetupDatabase | 05_src/assignment_2/app.py:150-178 | what the batched `add` calls add, position by position, is exactly the chunk list of the corpus (chunk, id and metadata), in `ceil(n / 50)` calls, and no id is added twice |
| Calculator.Runs | 05_src/assignment_2/app.py:84 | the spans of the matches of `[a-zA-Z_]+`, left to right; RunsAreMaximalRuns states that they are exactly the maximal runs, in order |
| Calculator.Words | 05_src/assignment_2/app.py:84 | `re.findall(r'[a-zA-Z_]+', expression)`: one word per match; RunsAreMaximalRuns states that the k-th word is the text of the k-th match |
| Calculator.RunEndFacts | 05_src/assignment_2/app.py:84 | a match extends over word characters and stops at the first non-word character or at the end |
| Calculator.RunsFromMaximal | 05_src/assignment_2/app.py:84 | every match found from a boundary on is a maximal run of `[a-zA-Z_]` |
| Calculator.MaximalRunsFound | 05_src/assignment_2/app.py:84 | every maximal run at or after a position is among the matches found from there |
| Calculator.RunsAreMaximalRuns | 05_src/assignment_2/app.py:84 | `findall` returns exactly the maximal runs of `[a-zA-Z_]`, left to right: every match is one, every one is matched, each match ends before the next starts, and the k-th word is the text of the k-th match |
| Calculator.NoWordCharsNoRuns | 05_src/assignment_2/app.py:84 | with no letter or underscore left, nothing more is matched |
| Calculator.Calculate | 05_src/assignment_2/app.py:84-89 | If some word's lower-case form is not one of the fourteen names, the reply is `Error: '<w>' not allowed` for the first such word `w`. When every word passes, the reply is the evaluator's |
| Calculator.NoLettersNoWords | 05_src/assignment_2/app.py:84-89 | an expression without letters or underscores has no words, so it always reaches evaluation |
| Calculator.GatePassesOnlyAllowedNames | 05_src/assignment_2/app.py:75-87 | when the gate lets an expression through, every maximal letter/underscore run in it is, lower-cased, one of the allowed names |
| Calculator.RefusalNamesWord | 05_src/assignment_2/app.py:87 | the refusal message determines the refused word |
| Search.Passage | 05_src/assignment_2/app.py:62-63 | `f"From '{story}':\n{doc[:500]}..."`; PassageParts states its three parts, PassageOfUnknownStory the default story |
| Search.Passages | 05_src/assignment_2/app.py:61-63 | one passage per `zip` pair; FormatPassages computes it and OneResultOnePassage states the single-result case |
| Search.FormatPassages | 05_src/assignment_2/app.py:60-63 | One passage per `zip` pair, as many as the shorter list has. The k-th passage is built from the k-th document and the k-th metadata |
| Search.SearchFatherBrown | 05_src/assignment_2/app.py:50-65 | An empty store gives the set-up hint, and no documents gives "No relevant passages found.". Otherwise the reply is the passages in result order, joined by `\n\n---\n\n` |
| Search.PassageParts | 05_src/assignment_2/app.py:62-63 | A passage is the header `From '<story>':\n`, then the first `min(500, len(doc))` characters of the document, then `...`. A document of at most 500 characters appears whole |
| Search.PassageOfUnknownStory | 05_src/assignment_2/app.py:62-63 | a result without `story` metadata is shown as from `Unknown` |
| Search.RepliesDistinguishable | 05_src/assignment_2/app.py:53-65 | a reply with passages starts with `From '`, which neither fixed message does, and the two fixed messages differ |
| Search.OneResultOnePassage | 05_src/assignment_2/app.py:63-65 | a single result gives its passage alone, without a separator |
| Chat.Converted | 05_src/assignment_2/app.py:107-112 | the history's user and assistant entries as messages, in order; ConvertedRoundTrip, ConvertedAppend, AllKeptAllConverted and ConvertedMembers characterize it |
| Chat.BuildMessages | 05_src/assignment_2/app.py:107-113 | the messages are the converted history in order, followed by the new user message |
| Chat.ConvertedRoundTrip | 05_src/assignment_2/app.py:108-112 | turning the messages back into entries gives the history with every entry that is neither user nor assistant dropped, in order |
| Chat.ConvertedAppend | 05_src/assignment_2/app.py:108-112 | converting a concatenation of histories concatenates their conversions, so history order is kept |
| Chat.AllKeptAllConverted | 05_src/assignment_2/app.py:108-112 | a history of user and assistant entries only loses nothing, and converts entry by entry |
| Chat.ConvertedMembers | 05_src/assignment_2/app.py:108-112 | a human (AI) message with content c is sent exactly when the history holds a user (assistant) entry with content c |
| Joke.TwoPart | 05_src/assignment_2/app.py:35 | `f"Setup: {setup}\nPunchline: {delivery}"`; TwoPartRoundTrip and InnerLabelSplitsEarly state when it reads back |
| Joke.Fallback | 05_src/assignment_2/app.py:40 | the fallback joke; FallbackIsTwoPart states that it is a two-part joke with its own setup and punchline |
| Joke.JokeReply | 05_src/assignment_2/app.py:27-40 | a failed request, a status other than 200, or an unreadable body gives the fallback joke |
| Joke.TwoPartRoundTrip | 05_src/assignment_2/app.py:35 | a two-part rendering reads back into its setup and delivery whenever the setup does not contain `\nPunchline: ` |
| Joke.InnerLabelSplitsEarly | 05_src/assignment_2/app.py:35 | when the setup does contain `\nPunchline: `, the rendering does not read back: the label inside the setup is found first |
| Joke.TwoPartReply | 05_src/assignment_2/app.py:33-35 | a 200 answer typed `twopart` is rendered from its `setup` and `delivery`, each defaulting to empty, and they read back from the reply whenever the setup does not contain `\nPunchline: ` |
| Joke.SinglePartReply | 05_src/assignment_2/app.py:33-36 | a 200 answer of any other type is its `joke` field, or `No joke found` |
| Joke.FallbackIsTwoPart | 05_src/assignment_2/app.py:40 | the fallback joke has the two-part shape and reads back into its own setup and punchline |

## Left out

- `eval` and the math functions are not modelled, because they are Python's evaluator over floats. Nor is `round(result, 10)`, `str(...)` of the result, or the `ZeroDivisionError` / `Exception` replies. `Calculate` takes the evaluator's reply as the parameter `evaluated`.
- The HTTP request to the joke service, its timeout and the bare `except` are network I/O. `JokeReply` takes the answer as input, and `None` stands for a request that raised.
- Joke payloads are modelled as maps from strings to strings. JSON values that are not strings are not modelled.
- The vector store is a foreign library with a persistent store. That covers collection creation and deletion, `count`, `query`, embeddings and `add`. The count and the query result are inputs of `SearchFatherBrown`, and each `add` is recorded as an `AddCall` value.
- Reading the corpus file and the progress `print`s are I/O. `SetupDatabase` starts from the text.
- The LangGraph agent, the system prompt, environment loading, the Gradio interface and the `__main__` flag handling are left out. They are wrappers around external libraries, with no logic of their own to verify. `BuildMessages` stops where the agent is invoked.
- Calculator.GatePassesOnlyAllowedNames speaks of ASCII letters and underscores only, as the source's pattern `[a-zA-Z_]` does. Python also accepts identifiers with other letters and normalizes them (NFKC) before looking them up; such names are outside the gate in the source too, and their evaluation is not modelled.
- PyText.Lower lower-cases ASCII letters only. Every string the application lowers is ASCII: the twelve titles and the `[a-zA-Z_]` matches.
- Chat.HistoryEntry always has a role and a content. A history entry without a `role` or `content` key, which makes the source raise `KeyError`, is not modelled.
- Search.SearchFatherBrown requires a metadata list whenever documents came back. The store always returns both, and the source would raise `IndexError` otherwise.
- Chunker.AppendStoryChunks models the source's inner `for j in range(...)` loop as a method of its own, with a `while` loop over `j`. Calculator.Calculate and the other `for ... in` loops are index loops over the sequence.
- Indexing.AddInBatches requires the three lists to have equal length. The lists that `SplitIntoChunks` returns always do, and `SetupDatabase` relies on it.
- Every passage ends in `...`: the source appends `...` to every passage, including one whose document has at most 500 characters and was not cut. The model does the same.
- When the next title's line is missing, a story's span runs to the end of the text. `find` returns -1 and the source slices `text[start:]`, so the span passes over `*** END OF` and any later stories. The model does the same; `Chunker.Span` states it.
