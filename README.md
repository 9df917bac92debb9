# Hit-rate experiment and network datasets of p2psearch, in Dafny

This project models two pieces of the p2psearch simulator.

**The hit-rate experiment** (`Simulation` in `simulations/hit_rate_analysis.py`). Each trial
(`iterate`) does the following:

- clears the peer-to-peer network;
- plants the gold document of a sampled query at one node and scatters `n_docs - 1` other
  documents;
- diffuses the embeddings;
- picks one node at every hop distance from the gold node;
- starts one search for the query from each picked node, with the configured `ttl`;
- forwards messages for `5 * ttl` epochs;
- scores each search 1 if its final candidate is the gold document, else 0.

`run` appends the outcomes of `n_iters` trials per hop. `postprocess` reduces them to the sorted
hop list and one hit rate per hop.

**The dataset bookkeeping** (`data/network/__init__.py`):

- the rewrite of a downloaded edgelist: comment lines dropped, the delimiter replaced by `;`;
- the dispatch on the dataset name, with its error for an unknown name;
- the `u;v` lines written for generated graphs;
- the names of the cache files.

Modules:

- `Wrappers` holds `Option` and `Result`.
- `Collaborators` models the network and the searches:
  - the network is a class whose state is the recorded calls it received since it was last cleared (`log`: documents, scattering, diffusion, messages, forwarding; the queries `sample_node` and `stream_hops` are not recorded) and the messages queued at its nodes (`queue`);
  - a search is a class whose candidate document forwarding overwrites in place;
  - the forwarding engine is an oracle, a function of what it can see of the queued messages (`Dispatch`).
- `Outcomes` holds the accumulation and the reduction as functions on maps and sequences, with their lemmas.
- `HitRateAnalysis` holds the `Simulation` class. `Iterate` and `Run` are methods proved against the functions `TrialResult` and `Accumulate`. A `Draw` value holds the random choices and the oracle answers one trial consumes.
- `NetworkData` holds the dataset table, the line rewrite, the edge lines, the name dispatch and the cache paths.

A mean is kept exact as the pair (hits, trials), with `Value()` the rational `hits / trials`.

## Model

| member | source | states |
|---|---|---|
| HitRateAnalysis.HopToNode | simulations/hit_rate_analysis.py:70-75 | one node per layer: the keys are exactly 0 .. L-1 for L layers, and the node at hop h lies in layer h |
| HitRateAnalysis.Dispatched | simulations/hit_rate_analysis.py:77-81 | one dispatch per layer, in hop order; the one for hop h starts at hop h's node with the trial's query and the configured ttl |
| HitRateAnalysis.Score | simulations/hit_rate_analysis.py:87-90 | the score is 0 or 1, and it is 1 exactly when the candidate is the gold document |
| HitRateAnalysis.TrialResult | simulations/hit_rate_analysis.py:87-90 | a trial's outcome has the keys 0 .. L-1 (contiguous) and only 0/1 values; the outcome at hop h is 1 iff forwarding for 5 * ttl epochs left the gold document as that search's candidate |
| HitRateAnalysis.TrialLogShape | simulations/hit_rate_analysis.py:55-84 | call order of a trial as `Prepared` and `TrialLog` record it: gold document first and only at the gold node; then one scatter of the documents asked for with `n_docs - 1`; then diffusion; then one call per queued message; finally forwarding for 5 * ttl epochs. That the scatter holds exactly n_docs - 1 documents, none of them gold, rests on the assumed contract of `sample_other_docs` (`ValidDraw`); the code itself only asks for `n_docs - 1` |
| HitRateAnalysis.AppendOutcomes | simulations/hit_rate_analysis.py:98-100 | appending one trial's outcomes hop by hop, in any key order, gives `Absorb` of the aggregate and the trial |
| HitRateAnalysis.ObservedByLayers | simulations/hit_rate_analysis.py:70-75 | a trial observed hop h exactly when its draw's layers reach h |
| HitRateAnalysis.TrialResults | simulations/hit_rate_analysis.py:97-98 | the outcomes of the trials, one per draw in trial order, each the `TrialResult` of its draw |
| HitRateAnalysis.TrialResultsShape | simulations/hit_rate_analysis.py:87-90 | every trial's outcome is keyed by a prefix 0 .. L-1 of the hops and holds only 0/1 values |
| HitRateAnalysis.RunReport | simulations/hit_rate_analysis.py:94-109 | after `run` and `postprocess`: hops are exactly 0, 1, ... up to the deepest layer any trial reached; each rate counts exactly the trials that reached that hop and lies in [0, 1]; farther hops have no more trials than nearer ones |
| HitRateAnalysis.Simulation.constructor | simulations/hit_rate_analysis.py:36-38 | the simulation keeps the configured n_docs, n_iters and ttl |
| HitRateAnalysis.Simulation.Iterate | simulations/hit_rate_analysis.py:52-92 | returns `TrialResult` of its draw; the recorded calls (documents, diffusion, messages, forwarding) are exactly those of `TrialLog`; the queued messages are the ones `Dispatched` describes |
| HitRateAnalysis.Simulation.SendSearches | simulations/hit_rate_analysis.py:77-81 | one new search per hop for the trial query; its message (`Search.SpawnMessage`, sharing the search), with the configured ttl, is queued at that hop's node in hop order; no two messages share a search |
| HitRateAnalysis.Simulation.Run | simulations/hit_rate_analysis.py:94-101 | the returned dictionary is `Accumulate` of the trials' outcomes in trial order |
| Collaborators.Search.constructor | simulations/hit_rate_analysis.py:79 | a new search for the query, with no candidate yet |
| Collaborators.Network.Clear | simulations/hit_rate_analysis.py:55 | no calls and no queued messages remain |
| Collaborators.Network.AddDoc | simulations/hit_rate_analysis.py:63 | records the document added at the node; the queue is unchanged |
| Collaborators.Network.ScatterDocs | simulations/hit_rate_analysis.py:64 | records the scattered documents; the queue is unchanged |
| Collaborators.Network.DiffuseFastEmbeddings | simulations/hit_rate_analysis.py:67 | records the diffusion; the queue is unchanged |
| Collaborators.Network.AddMessage | simulations/hit_rate_analysis.py:81 | records the call and appends the message to the queue |
| Collaborators.Network.ForwardMessages | simulations/hit_rate_analysis.py:84 | records forwarding for the given epochs; each queued message's search now holds the candidate the forwarding engine settled on for it |
| Outcomes.Absorb | simulations/hit_rate_analysis.py:98-100 | one trial appended: the keys become the union; every hop the trial observed gets its outcome appended to its list, or to a new empty one as the `defaultdict` lookup (`Lookup`) gives; every other hop is unchanged |
| Outcomes.AccumulateKeys | simulations/hit_rate_analysis.py:96-100 | a hop is a key of the aggregate exactly when some trial observed it |
| Outcomes.AccumulateIsObservations | simulations/hit_rate_analysis.py:96-100 | `Accumulate`, the dictionary `run` builds: the list of hop h holds, first trial first, the outcome of every trial that observed h (as the separately defined `Observations`) |
| Outcomes.ObservationCount | simulations/hit_rate_analysis.py:96-100 | the list of hop h is as long as the number of trials that observed h |
| Outcomes.HitCount | simulations/hit_rate_analysis.py:96-100 | with 0/1 outcomes, the `Sum` of the list of hop h is the number of trials that hit at h |
| Outcomes.AccumulateBits | simulations/hit_rate_analysis.py:96-100 | with 0/1 outcomes every recorded outcome is 0 or 1, and every list is non-empty |
| Outcomes.AccumulateContiguous | simulations/hit_rate_analysis.py:96-100 | if every trial's keys are a prefix 0 .. L-1, so are the aggregate's, and list lengths do not grow with the hop |
| Outcomes.RateInUnitInterval | simulations/hit_rate_analysis.py:105 | a rate with no more hits than trials lies in [0, 1] |
| Outcomes.Minimum | simulations/hit_rate_analysis.py:104 | the result is a member of the hop set and no larger than any other |
| Outcomes.SortedHops | simulations/hit_rate_analysis.py:104 | `sorted(list(keys))` is strictly increasing, holds exactly the keys, and has one entry per key |
| Outcomes.Postprocess | simulations/hit_rate_analysis.py:103-109 | the hops are sorted ascending without duplicates and are exactly the aggregate's keys; `hitRates` is aligned with `hops`; entry i is the (hits, trials) mean of hop i's list |
| Outcomes.SumOfBits | simulations/hit_rate_analysis.py:105 | a list of 0/1 outcomes sums to at most its length |
| Outcomes.HopRate | simulations/hit_rate_analysis.py:105 | `Mean`, the `np.mean` of an observed hop's list: it counts the trials that observed the hop (at least one) and those that hit; its value lies in [0, 1] |
| Outcomes.SummaryOfTrials | simulations/hit_rate_analysis.py:103-109 | the reported hops are exactly the observed ones; each rate is taken over only the trials that observed its hop |
| Outcomes.PostprocessContiguous | simulations/hit_rate_analysis.py:104 | for an aggregate keyed 0 .. L-1, the reported hops are exactly 0, 1, ..., L-1 |
| Outcomes.SummaryOfPrefixTrials | simulations/hit_rate_analysis.py:104-105 | when every trial observed a prefix of the hops, the reported hops are 0, 1, ...; the trial counts do not grow with the hop |
| Outcomes.PrefixReport | simulations/hit_rate_analysis.py:103-109 | over 0/1 trials each keyed by a prefix of the hops: the reported hops are 0, 1, ... exactly as observed, each rate is over the trials that observed it, and trial counts do not grow with the hop |
| NetworkData.IsComment | data/network/__init__.py:52 | `startswith("#")`: a line is a comment exactly when `#` is a prefix of it |
| NetworkData.Replace | data/network/__init__.py:54 | every occurrence of the delimiter is replaced and nothing else changes; the length is unchanged; a delimiter different from `;` no longer occurs |
| NetworkData.NormaliseLines | data/network/__init__.py:50-54 | no output line starts with `#`, whatever the delimiter; the dataset's delimiter, when it is not `;`, no longer occurs in any output line; no more lines than the input |
| NetworkData.KeptIndices | data/network/__init__.py:51-53 | the positions kept are strictly increasing and are exactly the positions of the non-comment lines |
| NetworkData.NormaliseKeepsNonComments | data/network/__init__.py:50-54 | the output is, line for line and in order, the non-comment input lines with the delimiter rewritten, each of unchanged length |
| NetworkData.RewriteLines | data/network/__init__.py:50-54 | the loop writes exactly `NormaliseLines` of the fetched lines |
| NetworkData.NatToString | data/network/__init__.py:66 | the decimal text of a number is non-empty and all digits |
| NetworkData.NatToStringRoundTrip | data/network/__init__.py:66 | the decimal text of a number reads back as that number |
| NetworkData.IndexOf | data/network/__init__.py:66 | the first occurrence of a character, or none exactly when it does not occur |
| NetworkData.EdgeLine | data/network/__init__.py:66 | an edge line ends in its only newline |
| NetworkData.EdgeLineRoundTrip | data/network/__init__.py:65-66 | the line `u;v\n` reads back as the edge (u, v) |
| NetworkData.EdgeLines | data/network/__init__.py:64-66 | the lines written for a generated graph (the same at lines 72-74): one line per edge, each reading back as its edge |
| NetworkData.WriteEdges | data/network/__init__.py:64-66 | one line per edge, in edge order, each reading back as its edge |
| NetworkData.QuoteParts | data/network/__init__.py:78 | `Quote`: the quoted name is the name between two single quotes |
| NetworkData.Items | data/network/__init__.py:78 | every name of the list appears quoted in the joined items |
| NetworkData.ListRepr | data/network/__init__.py:78 | every name of the list appears quoted in its `repr` |
| NetworkData.UnknownDataset | data/network/__init__.py:77-79 | the error message quotes the requested name and every known dataset name |
| NetworkData.DatasetsAreMetadataKeys | data/network/__init__.py:6-21 | the known-name list holds each METADATA key once, and nothing else |
| NetworkData.Download | data/network/__init__.py:36-79 | fails exactly for names outside METADATA, with the unknown-name message; gnutella, fb and internet give the rewritten downloaded lines, in which their delimiter no longer occurs; the two toy names give the edge lines of the generated graph |
| NetworkData.PathJoinParts | data/network/__init__.py:93-96 | `PathJoin`, `os.path.join` on POSIX: the result ends with the second part; an absolute second part replaces the first; otherwise the first part is kept as a prefix |
| NetworkData.BaseNameIsLastComponent | data/network/__init__.py:96 | `BaseName`, the last path component: it holds no `/`, ends the path, and is either the whole path or preceded by a `/` |
| NetworkData.JoinFileName | data/network/__init__.py:96 | joining a file name without `/` onto a directory not ending in `/` inserts one `/`, and the last component is the file name |
| NetworkData.JoinInSubdir | data/network/__init__.py:93-96 | a file name without `/` joined onto a sub-directory of the data directory lies directly in that sub-directory |
| NetworkData.EdgelistPathShape | data/network/__init__.py:93-96 | `EdgelistPath` (`get_edgelist_path`): for dataset names without `/`, the edgelist file is `<dataset>_edgelist.csv` directly under `edgelists`, and distinct such names give distinct files |
| NetworkData.PprMatrixPathShape | data/network/__init__.py:109-114 | `PprMatrixPath` (`get_ppr_matrix_path`): for a dataset name and alpha text without `/`, the ppr matrix file is `<dataset>_alpha<alpha>_symm.npy` or `..._asymm.npy` directly under `ppr_mats` |
| NetworkData.AbsoluteNameCollides | data/network/__init__.py:96 | without the `/`-free hypothesis distinctness fails: a dataset name starting with `/` replaces the directory, so `a` and `/d/edgelists/a` share one edgelist file under `/d` |
| NetworkData.PprMatrixPathForm | data/network/__init__.py:112-114 | the file ends in `_symm.npy` exactly when the symmetric form is asked for, and in `_asymm.npy` otherwise; it never ends in `.csv` |

## Left out

- The command line and the top-level run (simulations/hit_rate_analysis.py:149-190) are argument plumbing and are not modelled.
- `save` (simulations/hit_rate_analysis.py:111-136) writes files and plots with matplotlib; it is not modelled.
- `__call__` and `print` (simulations/hit_rate_analysis.py:138-146) only chain `run`, `postprocess` and `save`, and log; `HitRateAnalysis.RunReport` states the chained result.
- `uuid4`, `set_seed` and `tqdm` are not modelled.
- The process-wide random state is not modelled. The random choices and sampled values become fields of `Draw`, supplied by the caller: the query and gold document, the other documents for each count, the gold node, the hop layers, and the index `random.choice` picks in each layer.
- The dataset and the network are not part of this model: `load_dataset`, `load_network`, `stream_hops`, `QuerySearch`, `HardSumEmbeddingNode` and the documents' embeddings. They are inputs and oracles.
- What `forward_messages` does inside the network is an oracle. `Forwarding` sees the queued messages (node, query and ttl of each) and the epoch budget, and gives each search's final candidate.
- `diffuse_fast_embeddings`, `scatter_docs`, `add_doc` and `add_message` are modelled only as recorded calls.
- A new search is taken to start with no candidate; `QuerySearch` is not part of this model.
- Collaborators.Network.ForwardMessages: requires that no two queued messages share a search. `iterate` guarantees this, because each hop spawns a fresh search, and `SendSearches` proves it.
- `np.mean` floats are replaced by exact (hits, trials) pairs. The NaN of an empty list cannot arise, because every list in the aggregate is non-empty (`Outcomes.AccumulateBits`).
- HitRateAnalysis.Simulation.constructor: takes `n_iters` and `ttl` as non-negative (`nat`), whereas the source accepts any int. A negative `n_iters` runs no trials, which the model gives for 0. A negative `ttl` would reach `spawn_message` and `forward_messages(epochs=5 * ttl)` with a negative value, which the model does not represent.
- HitRateAnalysis.Simulation.Iterate: requires `n_docs >= 1` (the `DocCount` type). Below that, `sample_other_docs` would receive a negative count, and its behaviour is the dataset's business.
- The return values of `iterate`, `run` and `postprocess` are wrapped in one-key dictionaries in the source. The model returns the inner values.
- `hop2search` (keyed 0 .. L-1) is a sequence of searches in the model.
- HitRateAnalysis.Simulation.Run: visits each trial's keys in an arbitrary order rather than dictionary order. The result is the same, because each hop's list is updated once per trial.
- Outcomes.Postprocess: repeating it gives the same output trivially, because it is a function of its input and changes nothing. No separate lemma states this.
- The download plumbing of `download` is not modelled: `requests.get`, `gzip.decompress`, the progress prints and the file reads and writes (data/network/__init__.py:37-50). The fetched lines are an input, and the file written is the returned sequence of written strings.
- The networkx generators and the connectivity retry loop with its float `p` (data/network/__init__.py:58-62, 70) are not modelled. The generated graph's edges are an input, and `p` is left out of `Source`.
- The directory creation in the path helpers (data/network/__init__.py:94-95, 110-111) is not modelled.
- `DATA_DIR` (the package directory) is a parameter of the path functions.
- NetworkData.EdgelistPathShape: holds only for dataset names without `/`; `NetworkData.AbsoluteNameCollides` shows two names sharing a file otherwise.
- NetworkData.PprMatrixPathShape: holds only for a dataset name and alpha text without `/`.
- The float formatting of `alpha` is not modelled; alpha's text is an opaque string.
- NetworkData.Replace: models `str.replace` only for single-character targets, which is all that `download` uses.
- NetworkData.Quote: writes Python's `repr` only for strings without quotes or backslashes, which covers the five dataset names.
