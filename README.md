# A verified model of the imdb_neo4j question-to-graph backend

The backend answers questions about a movie/person graph stored in Neo4j.
This project models its deterministic core in Dafny and proves properties of
that model:

- **the record-to-graph formatter** `to_d3_format`. It turns query-result
  records into a node list, deduplicated by id in first-seen order, and a
  link list with one link per relationship triple (modules `GraphFormat` and
  `PyValues`);
- **the entity resolver** `map_entities`. It strips markdown fences from the
  language model's reply, parses it leniently, accepts full-text matches
  scoring above 0.5, and rewrites misspelt mentions in the question (modules
  `EntityMapper` and `PyStrings`);
- **the API handlers** `/chat` and `/graph/json`. `/chat` flattens the chat
  history into role-tagged messages and keeps the chain's records in
  `latest_intermediate_steps`; both handlers render those records (module
  `Api`, where `ChatServer` holds the module-level state).

Python semantics that the source relies on are written out:
- truthiness, `a or b` and `dict.get` (`PyValues`);
- the key equality of Python dictionaries, under which `True`, `1` and `1.0`
  are one key (`PyValues.PyKey`);
- `str.strip` with Python's white-space set, `startswith`, the test
  `"\n" in text` together with `split("\n", 1)[1]` (through `FindChar`,
  the index of the first newline), `rsplit(sep, 1)[0]` (through `RFind`,
  the index of the last separator) and `str.replace`, including the empty
  pattern (`PyStrings`).

A record's field value is a tagged union: a dictionary, a 3-tuple
`(start node, relationship, end node)`, or anything else. Python's dictionary
keeps insertion order; the model keeps that order as a sequence beside the
map.

Three parts of the system are inputs to the model:
- the language model's reply is a string, and `json.loads` is a function
  returning `None` where it raises `JSONDecodeError`;
- the two full-text queries are functions from a mention to the rows they
  return; scores are reals;
- the query chain `generate_response` is a function from the message list to
  the chain's result.

Three facts about the code shape the model:
- A triple's endpoints are not added as nodes. A record holding a movie
  dictionary and a triple from a person to that movie gives ONE node and one
  link (`GraphFormat.MovieAndTripleRecord`), not two nodes.
- The backend does not post-process the generated Cypher: no `LIMIT` is
  injected and no fences are stripped. The prompt templates
  (`cypher.py`, `cypher_to_d3.py`) only ask the language model for
  `LIMIT 30`. The only cap on the records is the chain's `top_k=100`
  (`cypher_to_d3.py`), applied inside the library, which is not modelled.
  Centrality is written to the database by a batch script
  (`compute_centrality.py`); the formatter only copies
  `eigenvectorCentrality`, which is modelled.
- A match is accepted with Python truthiness (`if match:`). So a match that
  is `None` or the empty string keeps the mention, even when its score is
  above 0.5.

## Model

Rows for functions that carry no `ensures` give what the function computes; the lemmas and methods in the rows after them state its properties.

| member | source | states |
|---|---|---|
| `GraphFormat.D3Format` | backend/app/services/tools/neo4j_to_json.py:1-38 | what `to_d3_format` returns: the records' field values, records first and fields second, folded through `Step` from an empty dictionary and link list, then rendered as the dictionary's nodes in insertion order and the links |
| `GraphFormat.Step` | backend/app/services/tools/neo4j_to_json.py:10-33 | the inner-loop body on one field value: a dictionary with `personId` or `movieId` whose id is not yet a key adds its node last; a 3-tuple appends its link; anything else changes nothing |
| `GraphFormat.ToD3Format` | backend/app/services/tools/neo4j_to_json.py:1-38 | the nested loop over records and fields returns exactly the payload that folding the records' field values through the node dictionary and link list gives |
| `GraphFormat.AddField` | backend/app/services/tools/neo4j_to_json.py:7-33 | one field value takes one step: a dictionary with `personId` or `movieId` adds its node under a new id, a 3-tuple appends its link, anything else changes nothing |
| `GraphFormat.FoldValid` | backend/app/services/tools/neo4j_to_json.py:2-33 | the node dictionary's invariant is kept: each key is listed once in insertion order, the listed keys are the dictionary's keys, and each key is the Python key of its node's id |
| `GraphFormat.NodesAreFirstSightings` | backend/app/services/tools/neo4j_to_json.py:10-22 | a key is in the node dictionary iff some node-like value has it, and its node is built from the first such value (first-seen wins) |
| `GraphFormat.OrderIsFirstSeen` | backend/app/services/tools/neo4j_to_json.py:5-22 | the dictionary's insertion order is strictly increasing in the position of each key's first sighting |
| `GraphFormat.LaterSightingIsNoOp` | backend/app/services/tools/neo4j_to_json.py:12 | a node-like value whose id was already seen changes no node, no order and no link |
| `GraphFormat.IgnoredFieldIsNoOp` | backend/app/services/tools/neo4j_to_json.py:10-25 | a value that is neither a dictionary with `personId`/`movieId` nor a 3-tuple leaves the whole state unchanged |
| `GraphFormat.LinksFollowTriples` | backend/app/services/tools/neo4j_to_json.py:25-33 | the links are the triples' links one for one, in encounter order and without deduplication; the link count is the number of triples |
| `GraphFormat.NodeIdsDistinct` | backend/app/services/tools/neo4j_to_json.py:10-36 | no two rendered nodes have ids that Python finds equal |
| `GraphFormat.RenderedNodesAreFirstSightings` | backend/app/services/tools/neo4j_to_json.py:10-22 | each rendered node comes from the first sighting of its id: the id and label follow Python's `or` fallback; the type is Person iff that dictionary has the key `personId`; a year only on a Movie whose dictionary has `year`; a centrality only when it has `eigenvectorCentrality`; no other key |
| `GraphFormat.RenderedNodesInFirstSeenOrder` | backend/app/services/tools/neo4j_to_json.py:5-36 | rendered nodes appear in the order their ids were first seen, records first and fields second |
| `GraphFormat.EveryIdIsRendered` | backend/app/services/tools/neo4j_to_json.py:10-22 | every node-like value's id is among the rendered nodes |
| `GraphFormat.RenderedLinksFollowTriples` | backend/app/services/tools/neo4j_to_json.py:25-37 | the returned links are the triples' links across all records, in order |
| `GraphFormat.EmptyResults` | backend/app/services/tools/neo4j_to_json.py:35-38 | no records give no nodes and no links |
| `GraphFormat.DanglingLinkIsKept` | backend/app/services/tools/neo4j_to_json.py:25-33 | a triple whose endpoints are never node values still yields its link, so dangling links are kept |
| `GraphFormat.MovieAndTripleRecord` | backend/app/services/tools/neo4j_to_json.py:5-38 | a movie dictionary followed by a triple gives the one movie node with its year and the one link |
| `GraphFormat.FalsyPersonIdFallsBack` | backend/app/services/tools/neo4j_to_json.py:11-16 | an empty `personId` makes the id fall back to `movieId`, yet the node's type is Person and it gets no year |
| `PyValues.PyKeyIsPyEq` | backend/app/services/tools/neo4j_to_json.py:12 | two ids are the same dictionary key iff Python's `==` finds them equal |
| `PyStrings.Strip` | backend/app/services/tools/entity_mapper.py:18 | `str.strip()`: the text without its leading and trailing Python white space |
| `PyStrings.StripSpec` | backend/app/services/tools/entity_mapper.py:18 | `strip()` keeps a slice of the text that is cut only at white space at the two ends |
| `PyStrings.StripEnds` | backend/app/services/tools/entity_mapper.py:18 | what `strip()` keeps neither starts nor ends with white space |
| `PyStrings.FindChar` | backend/app/services/tools/entity_mapper.py:21 | the index of the first newline, or none exactly when `"\n" in text` is false; the header cut of `split("\n", 1)[1]` starts after it |
| `PyStrings.RFind` | backend/app/services/tools/entity_mapper.py:22 | the index of the last fence, where `rsplit("```", 1)[0]` cuts, or none exactly when no fence occurs |
| `PyStrings.Lower` | backend/app/services/tools/entity_mapper.py:55 | `str.lower()` on ASCII letters, other characters kept; same length as the input |
| `PyStrings.ReplaceAll` | backend/app/services/tools/entity_mapper.py:56 | `str.replace(pat, rep)`: occurrences scanned from the left, non-overlapping, each replaced; the empty pattern inserts `rep` around every character |
| `PyStrings.ReplaceAbsent` | backend/app/services/tools/entity_mapper.py:56 | `replace` of a non-empty text that does not occur changes nothing |
| `PyStrings.ReplaceAtFirstOccurrence` | backend/app/services/tools/entity_mapper.py:56 | `replace` keeps the text before the leftmost occurrence, substitutes it, and continues after it |
| `EntityMapper.StripFences` | backend/app/services/tools/entity_mapper.py:18-22 | the text handed to `json.loads`: the stripped reply, and when it starts with three backticks, with its header line and everything from its last fence on removed |
| `EntityMapper.ExtractEntities` | backend/app/services/tools/entity_mapper.py:15-26 | `_extract_entities`: the parse of the fence-stripped reply, or empty `persons` and `movies` lists when the parse fails |
| `EntityMapper.FuzzyMatch` | backend/app/services/tools/entity_mapper.py:29-39 | `_fuzzy_match`: the first row's `match` when there is a row and its score is above 0.5, else none |
| `EntityMapper.StripFencesSpec` | backend/app/services/tools/entity_mapper.py:18-22 | unfenced text is kept; fenced text loses everything through its first newline (or the three backticks when there is none), then everything from its last fence on |
| `EntityMapper.ParseFallback` | backend/app/services/tools/entity_mapper.py:23-26 | a reply that does not parse yields empty person and movie lists; one that parses is used as parsed |
| `EntityMapper.MissingKeysAreEmpty` | backend/app/services/tools/entity_mapper.py:51-61 | missing `persons`/`movies` keys read as empty lists |
| `EntityMapper.LowScoreKeepsMention` | backend/app/services/tools/entity_mapper.py:37-39 | with no row, or a first row scoring at most 0.5, the mention is kept and rewrites nothing |
| `EntityMapper.HighScoreTakesMatch` | backend/app/services/tools/entity_mapper.py:37-39 | a first row scoring above 0.5 with a non-empty match replaces the mention, and it rewrites the question iff it differs ignoring case |
| `EntityMapper.Corrected` | backend/app/services/tools/entity_mapper.py:51-66 | the question after the mention loop: for each mention in order, whose accepted match differs ignoring case, the text so far has the mention replaced by the match |
| `EntityMapper.CorrectMentions` | backend/app/services/tools/entity_mapper.py:51-69 | one mention loop: entry i of the list is mention i's accepted match or the mention itself, and the text goes through each differing match's `replace` in mention order |
| `EntityMapper.MapEntities` | backend/app/services/tools/entity_mapper.py:42-77 | the person and movie lists keep the extracted lists' length and order, entry i being the accepted match or the mention; the corrected question applies all person corrections, then all movie corrections |
| `EntityMapper.NoRewriteKeepsText` | backend/app/services/tools/entity_mapper.py:51-66 | when no mention has a differing accepted match, the text is unchanged |
| `EntityMapper.CorrectedAppend` | backend/app/services/tools/entity_mapper.py:51-66 | later corrections operate on the text that earlier ones already corrected |
| `EntityMapper.QuestionKeptWithoutRewrites` | backend/app/services/tools/entity_mapper.py:46-77 | when no person or movie mention has a differing match, `corrected` equals the question |
| `EntityMapper.MisspeltNameIsCorrected` | backend/app/services/tools/entity_mapper.py:51-56 | "Tom Hnks" matched to "Tom Hanks" with score 0.8 is replaced in the question |
| `EntityMapper.CaseOnlyMatchIsNotRewritten` | backend/app/services/tools/entity_mapper.py:53-56 | a match differing only in case is kept in the list but leaves the question as it is |
| `Api.Conversation` | backend/app/api.py:74-82 | the flattened message list: per earlier turn a user message and an assistant message, then the new message as a user message |
| `Api.LatestContext` | backend/app/api.py:86 | `result['intermediate_steps'][1]['context']`, or none where that lookup raises (no steps, fewer than two, or no `context` key) |
| `Api.ConversationShape` | backend/app/api.py:74-82 | the message list has 2·\|history\|+1 entries; entry 2i is the user's turn i, entry 2i+1 the bot's, and the last is the new message |
| `Api.BuildMessages` | backend/app/api.py:74-82 | the loop builds exactly that message list |
| `Api.ChatServer.constructor` | backend/app/api.py:57 | the latest result starts empty |
| `Api.ChatServer.Chat` | backend/app/api.py:63-87 | the chain gets the flattened conversation; the latest result becomes `intermediate_steps[1]['context']` and the reply is its rendering; when that lookup fails, the state is unchanged and an error is returned |
| `Api.ChatServer.GetGraphJson` | backend/app/api.py:90-92 | returns the rendering of the latest result and changes nothing |
| `Api.GraphBeforeAnyChat` | backend/app/api.py:57-92 | before any chat, `/graph/json` returns empty nodes and links |
| `Api.GraphAfterChat` | backend/app/api.py:57-92 | after the first chat on a fresh server, `/graph/json` returns what `/chat` returned, or the empty graph when that chat failed |
| `Api.GraphAcrossChat` | backend/app/api.py:85-92 | on any server, `/graph/json` after a chat returns what `/chat` returned; when the chat fails (the lookup at line 86 raises before the global is assigned), it keeps returning the previous rendering |

## Left out

- Network and process plumbing: the real language-model call, `json.loads`, the Neo4j queries and the query chain are inputs, not models. So are FastAPI routing, CORS, pydantic validation and the `print` calls.
- Concurrency: concurrent `/chat` requests updating `latest_intermediate_steps` without a lock are not modelled; the class runs one request at a time.
- The extraction prompt text and the full-text query strings (`name + "~"`, index names, `LIMIT 1`) are not modelled; the search inputs stand for the query's result.
- Field values the source would reject are not modelled: a 3-tuple whose ends are not dictionaries (`.get` would raise).
- Replies the source would reject are not modelled: a JSON reply that is not an object raises at `entities.get`, and a `persons`/`movies` list holding non-strings raises in `_fuzzy_match` at `name + "~"`. A `persons`/`movies` value that is a string or an object is iterated by its characters or keys; the parse input stands for that as the list of what the loop visits.
- Dictionary values other than scalars (lists, nested dictionaries) are not modelled. Neither is a float NaN as an id, which Python keys by identity.
- `PyStrings.Lower`: maps only ASCII letters, while Python's `str.lower` covers all of Unicode. Case-insensitive comparisons of non-ASCII names may differ.
- Exceptions from the language model, the store or the chain are not modelled. Only the failing `result['intermediate_steps'][1]['context']` lookup of `/chat` is.
- `cypher.py`, `cypher_to_d3.py`, `compute_centrality.py`, `llm.py`, `graph.py` and the React front end are not part of this model: they are prompt templates, database procedure calls, client configuration and UI.
