# Data Explorer indexers and deployment scripts, modelled in Dafny

This project models the decision logic of the Data Explorer indexers and of
the Elasticsearch deployment scripts next to them. Each part is stated as
Dafny definitions with proved contracts:

- **Index names.** How an index name is derived from a dataset name.
- **BigQuery indexer.** How each warehouse row becomes one upsert action.
- **Files indexer.** How a CSV manifest in Cloud Storage is grouped into one
  document per primary key, each with its list of file records.
- **GCS indexer.** How a `gs://` pattern with a `PRIMARY_KEY` placeholder is
  split into bucket and listing prefix, and how the key is taken from every
  listed object.
- **Deployment configuration** (`gen_util.py`):
  - comment stripping and the deployment lookup of `load_config`;
  - the paths under `./deployments` and the `rm -f` glob that removes them;
  - the netrc line.
- **Status report** (`status_util.py`):
  - Kubernetes quantity conversions and the unit a quantity is shown in;
  - request sums over pods;
  - the disk and pod filters of a node pool;
  - the pool lookup;
  - the not-found classifier of `_check_found`.
- **`es-config.py`**: memory and machine type, the two node pools, and the
  command-line check and dispatch.
- **Container image names** of `docker_util.py`.

One Dafny module per source file:

| module | file |
|---|---|
| `IndexName` | `index_name.dfy` |
| `BigQueryIndexer` | `bigquery_indexer.dfy` |
| `StoragePath` | `storage_path.dfy` (the `gs://` path split that both Cloud Storage indexers perform) |
| `FilesIndexer` | `files_indexer.dfy` |
| `GcsIndexer` | `gcs_indexer.dfy` |
| `GenUtil` | `gen_util.dfy` |
| `StatusUtil` | `status_util.dfy` |
| `EsConfig` | `es_config.dfy` |
| `DockerUtil` | `docker_util.dfy` |

Two modules are shared:

- `Text` (`text.dfy`) gives the Python string operations used, with CPython's
  meaning: `find`/`index`, `in`, `replace`, `split`, `join`, `rstrip`,
  `lstrip`, ASCII `lower`, `os.path.basename`, `str(int)`, and `int()` of a
  float, which truncates toward zero.
- `Wrappers` (`wrappers.dfy`) holds `Option` and `Result`.

Every exception or `err_exit` of the source is a `Failure` value naming that
condition.

The model keeps the source's form:

- **State changed in place is an imperative method.**
  - `ConvertToIndexName` is a loop of `replace` calls over a string.
  - `StripComments` overwrites an array of lines in place.
  - `IndexFileManifest`, `GroupManifestRows` and `ProjectRow` run the nested
    loops of the files indexer, with the `docs` map updated in a variable.
  - `SumRequested` is the accumulator loop over pods. The inner loop over a
    pod's containers is the method `SumContainers`, which continues the
    running sum.
  - `DisksForNode` and `NodePoolDisks` are the append loops.
- **Pure code is pure functions.** Each method is proved equal to a
  specification function. The lemmas state what the source promises about
  that function.

## External calls

These are parameters of the model:

- **Number parsing.** `float()` of a text is a parameter
  `parseFloat: string -> Option<real>`, which gives None where Python raises
  ValueError.
- **Request conversion.** The request sums take the conversion as a
  parameter. `Converter(res, parseFloat)` is the one the source uses:
  `_cpu_str_to_millis` for CPU and `_mem_str_to_bytes` for memory.
- **JSON.** The parsed `es-config.json` is the result of a
  parameter `parseJson`.
- **Storage.** The listing of a Cloud Storage bucket is a parameter
  `listBlobs`, and a manifest download is a parameter `download`.
- **gcloud and kubectl.** The gcloud call that describes an instance
  group is a parameter `describeMig` giving its exit code and output,
  which `StatusUtil.NodePoolDetails` passes through `StatusUtil.CheckFound`
  as `_describe_managed_instance_group` does. The node listing is a
  parameter `listNodes`.

What the source only prints or sends (log lines, the bulk request) is
returned instead.

In two places the code does less than its settings or comments suggest.
The model follows the code in both:

- **Files indexer delimiter.** The manifest's `delimiter` setting applies
  only to the header line; the data rows are always split on `,`.
  `FilesIndexer.IndexFileManifest` does the same, and
  `FilesIndexer.TabSeparatedRow` shows what that does to a tab-separated
  row.
- **RAM settings.** The RAM setting must end in upper-case `GB`, although a
  comment in `_vm_memory` speaks of `gb`, and the default `'6gb'` fails
  that test. `EsConfig.NodePools` builds the pools of `k8-create` with
  that default, so a node without `vm_ram` stops it with the ram error.
  `EsConfig.NodePoolsIntended` shows the pools the `'6GB'` default would
  give. See the finding below.

## Model

| member | source | states |
|---|---|---|
| IndexName.NormalizeChar | indexer_util/indexer_util/indexer_util.py:44-47 | a character after the replacements and `lower` is neither prohibited nor upper case |
| IndexName.Normalize | indexer_util/indexer_util/indexer_util.py:45-47 | the replaced and lowered name has the input's length, character by character |
| IndexName.ConvertToIndexName | indexer_util/indexer_util/indexer_util.py:40-52 | the replace loop, `lower` and the guarded `lstrip` compute the specified index name: none of the ten prohibited characters, no upper case, no leading `_`, no longer than the input, and a suffix of the normalised input |
| IndexName.IndexNameIsIndexName | indexer_util/indexer_util/indexer_util.py:44-50 | every converted name is a valid index name: no prohibited character, no upper case, no leading underscore (the whole run is removed) |
| IndexName.NormalizeIndexName | indexer_util/indexer_util/indexer_util.py:45-47 | replacing and lowering a valid index name changes nothing |
| IndexName.IndexNameIdempotent | indexer_util/indexer_util/indexer_util.py:40-52 | converting a converted name gives it back unchanged |
| IndexName.IndexNameExample | indexer_util/indexer_util/indexer_util.py:45-50 | `/My Data` becomes `my_data` |
| BigQueryIndexer.NonNull | bigquery/indexer.py:96 | `dropna().to_dict()` keeps exactly the non-null cells, with their values |
| BigQueryIndexer.UpsertAction | bigquery/indexer.py:86-97 | the action of a row is an `update` of the given index with `doc_as_upsert`, its id the primary-key cell, its doc exactly the non-null cells (the primary key included when non-null) |
| BigQueryIndexer.Actions | bigquery/indexer.py:85-98 | one action per row, in row order, each with those properties |
| BigQueryIndexer.IndexTable | bigquery/indexer.py:78-98 | fails with the missing primary key exactly when the column is absent, before any action; otherwise one correct action per row in order |
| BigQueryIndexer.UpsertKeepsNullColumns | bigquery/indexer.py:93-97 | applying an upserted doc keeps the existing value of every null column and takes every non-null cell |
| BigQueryIndexer.UpsertIdempotent | bigquery/indexer.py:87-97 | applying the same upsert twice gives the document applying it once gives |
| BigQueryIndexer.EnvironOrRequired | bigquery/indexer.py:24-28 | a default equal to the environment value exactly when it is set and non-empty; `required` otherwise |
| StoragePath.SplitPath | files/indexer.py:47-49 | after removing `gs://`: no `/` is the IndexError; otherwise the bucket is `split('/')[0]`, holds no `/`, and bucket + `/` + object is the trimmed path |
| StoragePath.SplitPathAt | gcs/indexer.py:43-48 | a trimmed path `bucket/object` with no `/` in the bucket splits into exactly that bucket and object |
| FilesIndexer.DataRows | files/indexer.py:66 | one field list per data line, in order, each as `csv.reader` splits it (without a record-ending `\r`) |
| FilesIndexer.CrlfLine | files/indexer.py:62-68 | a CRLF line has the fields of the line without its `\r`, and a line holding only `\r` is blank |
| FilesIndexer.CrlfTwoFields | files/indexer.py:62-66 | a CRLF line `a,b\r` splits into `a` and `b` |
| FilesIndexer.CrlfManifestHeader | files/indexer.py:62-63 | the CRLF header `name,id\r` gives the column names `name` and `id` |
| FilesIndexer.CrlfManifestRow | files/indexer.py:66-84 | under that header the CRLF row `a,x\r` is indexed as id `x` with record `name: a` |
| FilesIndexer.DataRowWithoutComma | files/indexer.py:66 | a data line without a comma is one cell, whatever the manifest's delimiter |
| FilesIndexer.TabSeparatedRow | files/indexer.py:62-66 | `a<TAB>b` is two header fields with a tab delimiter but one data cell |
| FilesIndexer.ScanColumnsContents | files/indexer.py:71-80 | a record's keys are exactly the row's columns other than the primary key, each holding the last cell of that name; the id is the last primary-key cell, empty if there is none |
| FilesIndexer.ProjectRow | files/indexer.py:71-84 | the cell loop gives the specified id and record, the IndexError for a row wider than the header, and the ValueError for a missing or empty key |
| FilesIndexer.GroupManifestRows | files/indexer.py:65-87 | the row loop over the manifest computes the specified grouping, skipping blank rows and stopping at the first bad row |
| FilesIndexer.IndexFileManifest | files/indexer.py:40-87 | the whole manifest, header split on the configured delimiter and data rows on `,`, gives the specified documents or the path, missing-manifest or row error |
| FilesIndexer.GroupRowsSucceeds | files/indexer.py:65-87 | grouping succeeds exactly when every non-blank row parses |
| FilesIndexer.GroupRowsFirstError | files/indexer.py:75-84 | a failed grouping reports the error of the first non-blank row that does not parse |
| FilesIndexer.GroupRowsContents | files/indexer.py:85-87 | the ids in `docs` are exactly the ids of the rows, and each id's `files` list is its rows' records in row order |
| FilesIndexer.GroupRowsOmitsPrimaryKey | files/indexer.py:74-80 | no file record holds the primary-key column |
| FilesIndexer.GroupRowsCount | files/indexer.py:68-87 | the number of file records equals the number of non-blank rows |
| FilesIndexer.BlankRowIgnored | files/indexer.py:68-69 | a blank row anywhere changes nothing |
| GcsIndexer.ParseListing | gcs/indexer.py:43-50 | fails without a `/` or without `PRIMARY_KEY` in the object part; otherwise the bucket is `split('/')[0]` and the prefix is the object text before its first `PRIMARY_KEY` (a prefix of the object part, containing no other `PRIMARY_KEY`) |
| GcsIndexer.ParseListingExample | gcs/indexer.py:38-49 | `gs://genomics-public-data/platinum-genomes/bam/PRIMARY_KEY_` gives bucket `genomics-public-data` and prefix `platinum-genomes/bam/` |
| GcsIndexer.Segments | gcs/indexer.py:57 | the expression is the pattern's literal pieces joined by `(\w+)` |
| GcsIndexer.WordRun | gcs/indexer.py:57 | the longest run of word characters at the start of a text |
| GcsIndexer.Greedy | gcs/indexer.py:57-61 | the greedy group length, the longest one after which the rest still matches; none exactly when no length does |
| GcsIndexer.GroupLength | gcs/indexer.py:61-63 | the first group in a match is the longest word run after which the rest of the expression matches |
| GcsIndexer.FirstGroup | gcs/indexer.py:63 | `match.group(1)` is non-empty, consists of word characters, and is the text right after the first literal piece |
| GcsIndexer.KeysOf | gcs/indexer.py:59-67 | one key per listed object, in listing order, each the first group of a match of `gs://<bucket>/<name>` |
| GcsIndexer.IndexGcsPattern | gcs/indexer.py:37-67 | a pattern error comes first; otherwise the keys of the objects listed under the bucket and prefix: it succeeds exactly when every listed path matches and the expression has a group (or nothing is listed), giving one key per object, in listing order, each a non-empty run of word characters paired with its `gs://` path |
| GcsIndexer.KeysOfSucceeds | gcs/indexer.py:59-67 | the keys are found exactly when every listed path matches (and the expression has a group, unless nothing is listed) |
| GcsIndexer.KeysAreWords | gcs/indexer.py:62-63 | every extracted key is a non-empty run of word characters |
| GcsIndexer.MatchesExtend | gcs/indexer.py:61 | `re.match` is anchored at the start only: appending text to a matching path keeps it matching |
| GenUtil.StripComment | elasticsearch/gen_util.py:57-63 | a stripped line is a prefix of the line with no `#`; with a `#`, exactly the text before the first one; without, the line right-stripped |
| GenUtil.StripCommentKeepsCode | elasticsearch/gen_util.py:59-61 | the code before a first `#` is kept exactly |
| GenUtil.StripComments | elasticsearch/gen_util.py:56-63 | the in-place pass keeps the number of lines and replaces each by its stripped form |
| GenUtil.StrippedText | elasticsearch/gen_util.py:67 | the text given to the JSON parser holds no `#` |
| GenUtil.FindDeployment | elasticsearch/gen_util.py:72-75 | the first deployment of that name, after only differently named ones; a nameless one met first is the KeyError; none of that name is not found |
| GenUtil.LoadConfig | elasticsearch/gen_util.py:51-75 | `load_config` returns the specified configuration, which carries the deployment's name, or the JSON, missing-name or not-found error |
| GenUtil.DeploymentPath | elasticsearch/gen_util.py:83-96 | every deployment file is `./deployments/<name>.` followed by its suffix |
| GenUtil.DeploymentPathsDistinct | elasticsearch/gen_util.py:83-96 | two deployment paths are equal exactly when deployment and file kind are equal |
| GenUtil.RemovalGlobCovers | elasticsearch/gen_util.py:148-149 | `rm -f ./deployments/<name>.*` matches each of the four files of the deployment |
| GenUtil.RemovalGlobReachesDottedNames | elasticsearch/gen_util.py:148-149 | the same glob also matches the files of a deployment named `<name>.<more>` |
| GenUtil.NetrcLineTokens | elasticsearch/gen_util.py:126-131 | the netrc line splits at spaces into `machine <ip> login elastic password <password>` and ends with a newline |
| StatusUtil.CpuStrToMillis | elasticsearch/status_util.py:42-46 | `<x>m` is `x` millicores; any other text is `x * 1000` truncated toward zero; a bad number is the ValueError |
| StatusUtil.MemStrToBytes | elasticsearch/status_util.py:49-59 | `Ki`/`Mi`/`Gi`/`Ti` scale the number by 1024 to the 1st to 4th power; the assertion fails exactly when none of them ends the text |
| StatusUtil.Scaled | elasticsearch/status_util.py:51-57 | the number before the two-letter suffix times the factor, or the ValueError |
| StatusUtil.PrintableMem | elasticsearch/status_util.py:29-39 | the tier is the largest unit the quantity reaches (bare below 1024, `Ti` from 1024⁴ up), and value times unit is the quantity |
| StatusUtil.PrintableMemTier | elasticsearch/status_util.py:29-39 | the tiers are disjoint and exhaustive: a tier is chosen exactly when the quantity lies in its range |
| StatusUtil.MemRoundTrip | elasticsearch/status_util.py:29-59 | a quantity `<x><unit>` with `1 <= x < 1024` is shown as `x` in the same unit |
| StatusUtil.PrintableCpu | elasticsearch/status_util.py:23-26 | below 1000 millicores the `mCPU` count truncated toward zero (for negative values too), otherwise the number of cores, millis / 1000 |
| StatusUtil.CpuRoundTrip | elasticsearch/status_util.py:23-44 | a whole `<n>m` below 1000 converts to `n` millicores and is shown as `n mCPU` |
| StatusUtil.SumContainers | elasticsearch/status_util.py:65-68 | the inner loop adds every container's amount to the running sum, or gives the first conversion error |
| StatusUtil.SumRequested | elasticsearch/status_util.py:62-83 | the accumulator loops compute the specified sum over all containers of all pods, or the first conversion error |
| StatusUtil.PodsRequestedAppend | elasticsearch/status_util.py:62-83 | the sum over two lists of pods is the sum of the two sums |
| StatusUtil.NoRequestsAddNothing | elasticsearch/status_util.py:66-80 | containers with a missing or empty request add nothing |
| StatusUtil.PodWithoutRequests | elasticsearch/status_util.py:62-83 | a pod without requests leaves the sum unchanged |
| StatusUtil.Filter | elasticsearch/status_util.py:272-304 | keeps exactly the elements that pass, each as often as in the input |
| StatusUtil.FilterIsSubsequence | elasticsearch/status_util.py:252-304 | the filters keep an order-preserving subsequence of their input |
| StatusUtil.DisksUsedBy | elasticsearch/status_util.py:272-279 | the disks kept are exactly those with a user VM in the set, each as often as listed, in listing order |
| StatusUtil.DisksUsingIsUsedBy | elasticsearch/status_util.py:252-279 | the disks of one node are the pool filter's disks for that node alone |
| StatusUtil.DisksForNode | elasticsearch/status_util.py:252-260 | the loop keeps, in order, the disks whose users' basenames include the node's name |
| StatusUtil.NodePoolDisks | elasticsearch/status_util.py:264-281 | no disks for no nodes; otherwise the loop keeps, in order, the disks used by some node of the pool |
| StatusUtil.NodePoolDisksOfOneNode | elasticsearch/status_util.py:252-281 | for a one-node pool the pool filter agrees with the per-node filter, and an empty pool keeps no disk |
| StatusUtil.NodePoolPods | elasticsearch/status_util.py:295-304 | a pod is kept exactly when its node is one of the nodes, each as often as listed; none for no nodes; the listing order is kept |
| StatusUtil.CheckFound | elasticsearch/status_util.py:188-200 | exit code 0 is found; a non-zero code with a 404 marker in the output is not found; any other non-zero code exits with that code |
| StatusUtil.FindPool | elasticsearch/status_util.py:223 | the first pool of that name; none exactly when no pool has it |
| StatusUtil.NodePoolDetails | elasticsearch/status_util.py:212-241 | an unknown pool gives `(None, None, [])`; otherwise, for the first pool of that name, case by case: no instance group is the IndexError; a `_check_found` exit ends the call with its exit code; a 404 gives `(pool, None, [])`; a found group gives `(pool, description, nodes)`, with the listed nodes, or `[]` when the listing fails |
| EsConfig.VmMemory | elasticsearch/es-config.py:29-45 | the exit happens exactly when the text does not end in upper-case `GB`; `<x>GB` is `x * 1024` MB truncated; a bad number is the ValueError |
| EsConfig.VmMemoryQuarters | elasticsearch/es-config.py:33-41 | a whole number of quarter gigabytes is a whole number of 256 MB units |
| EsConfig.MachineTypeWith | elasticsearch/es-config.py:48-53 | fails exactly when the memory does; otherwise `e2-custom-<cpu>-<mem>` with cpu defaulting to 2 |
| EsConfig.DefaultRamRejected | elasticsearch/es-config.py:40-50 | as written, a node without `vm_ram` always fails with `Invalid 'ram' value: '6gb'` |
| EsConfig.DefaultMachineType | elasticsearch/es-config.py:48-53 | with the intended default, a node without settings gets `e2-custom-2-6144` |
| EsConfig.MachineTypeNameRoundTrip | elasticsearch/es-config.py:53 | the machine-type name splits at `-` into `e2`, `custom`, cpu and memory, and both numbers read back |
| EsConfig.NodePoolsWith | elasticsearch/es-config.py:68-80 | for a given `vm_ram` default: `master-pool`/`es-master` and `data-pool`/`es-data` with the configured counts and the nodes' machine types; fails exactly when either machine type fails, the master's error first |
| EsConfig.NodePools | elasticsearch/es-config.py:68-80 | `k8-create` as written (default `'6gb'`): a master without `vm_ram` fails with the ram error, so does a data node without it once the master succeeds, and success needs `vm_ram` on both nodes |
| EsConfig.NodePoolsIntended | elasticsearch/es-config.py:68-80 | with the intended `'6GB'` default, nodes that set only their counts both get `e2-custom-2-6144` |
| EsConfig.NodePoolsDistinct | elasticsearch/es-config.py:68-80 | for any `vm_ram` default, the two pools differ in name and node type; equal node settings give equal machine types |
| EsConfig.ParseCommand | elasticsearch/es-config.py:234 | a word is a command exactly when it is one of the four names |
| EsConfig.CommandNameRoundTrip | elasticsearch/es-config.py:234-248 | every command's name parses back to that command |
| EsConfig.ValidateArgs | elasticsearch/es-config.py:227-235 | the usage exit happens exactly when argv does not have three words or the second is not a command |
| EsConfig.ExactlyOneHandler | elasticsearch/es-config.py:239-248 | a valid command runs exactly its own handler |
| EsConfig.Main | elasticsearch/es-config.py:227-248 | usage errors come first, then configuration errors; the handler receives the named deployment's configuration |
| DockerUtil.ImageName | elasticsearch/docker_util.py:35-40 | ends with the basename; holds a `/` exactly when the path mentions `elasticsearch`, and is then `elasticsearch/<basename>` |
| DockerUtil.ImageNameOneSlash | elasticsearch/docker_util.py:35-40 | an image name holds at most one `/` |
| DockerUtil.ImageNameParts | elasticsearch/docker_util.py:35-40 | the image name splits at `/` into the optional `elasticsearch` directory and the basename |
| DockerUtil.GcrImagePath | elasticsearch/docker_util.py:43-47 | the registry path starts with `gcr.io/` and ends with the image name |
| DockerUtil.GcrImagePathParts | elasticsearch/docker_util.py:43-47 | for a project without `/`, the path splits into `gcr.io`, the project, the optional `elasticsearch` and the basename |
| DockerUtil.OperatorImageName | elasticsearch/es_util.py:14 | `docker.elastic.co/eck/eck-operator:1.1.2` becomes `eck-operator:1.1.2` (it mentions `elastic` but not `elasticsearch`) |
| DockerUtil.ElasticsearchDirImageName | elasticsearch/docker_util.py:37-39 | an image under a registry's `elasticsearch/` directory becomes `elasticsearch/<name>` |
| DockerUtil.ElasticsearchImageName | elasticsearch/es_util.py:19-20 | `docker.elastic.co/elasticsearch/elasticsearch:7.7.1` becomes `elasticsearch/elasticsearch:7.7.1` |

## Left out

**Outside the model**

- **External services.** BigQuery (`pd.read_gbq`), the Cloud Storage client,
  `bulk`, index creation and health waits are left out; the model receives
  their results as parameters or returns what would be sent.
  `indexer_util.get_index_name`, `parse_json_file`,
  `maybe_create_elasticsearch_index` and `bulk_index` are not part of this
  model.
- **Retry and sleep loops.** `_wait_elasticsearch_healthy` and
  `get_loadbalancer_ip` are timing and network behaviour.
- **Shell and file I/O.** `k8_util.py`, `es_util.py` apart from its two image
  paths, `run_command`, file writes and permission bits, YAML templating,
  `print_node_pool`, `print_cluster_metadata` and `timestamp` are shell
  plumbing or output.
- **Exit messages.** Some `err_exit` messages are not f-strings and print
  their braces literally; the model keeps only the error's kind and data.
  `_usage` lists three of the four commands.
- **Parsing.** `float()` text parsing and JSON parsing are parameters. Like
  JSON parsing in general, a `vm_cpu` that is not an integer is outside the
  model.
- **Floating point.** Python floats are modelled as exact reals and `%.2f`
  formatting is left out, so `StatusUtil.PrintableMem` and
  `StatusUtil.PrintableCpu` return the number and unit to be printed.
- **Python version.** The Python-2 calls `lines.next()` and `iteritems()` in
  the files indexer, and the `storage`/`re` imports missing from the GCS
  indexer, are runtime breakage; the model follows the evidently intended
  iteration.
- **Calls that break at run time.** These calls fail as written:
  - `es-config.py` line 114 calls `rm_deployment_files` without its module;
  - line 185 calls `prepare_cluster` with one argument where it takes two;
  - `status_util.py` line 213 calls `k8_util.describe_managed_instance_group`,
    which `k8_util.py` does not define, so every found pool with an instance
    group ends in an AttributeError;
  - `status_util.py` lines 235-237 and 285-287 pass `emit_command=False` to
    `k8_util.kubectl_command`, which takes no such keyword (`k8_util.py`
    line 145), so the node and pod listings raise a TypeError.

  `StatusUtil.NodePoolDetails` and `StatusUtil.NodePoolPods` take the
  description and the listings as parameters (`describeMig`, `listNodes`,
  `allPods`). These stand for the interface the calls evidently expect: an
  exit code with the command's output, and the parsed `items`.

**Modelled under stated assumptions**

- **CSV.** Quoting and escaping are not modelled; a line is split at every
  delimiter. One trailing `\r` ends the record, as `csv.reader` reads it.
  A `\r` inside a line, which `csv.reader` rejects as a new-line in an
  unquoted field, is left in the field.
- **CSV delimiter.** The delimiter is a `char`, so the `TypeError` that
  `csv.reader` raises for a delimiter that is not exactly one character
  long is not modelled.
- **Text.** `lower` and `\w` are ASCII only.
- **Regular expressions.** Of the expression's metacharacters only `.` is
  modelled; the literal text around `PRIMARY_KEY` is assumed to hold no
  others. Each `PRIMARY_KEY` group is matched greedily with backtracking.
- **Files indexer documents.** Each document of the files indexer is
  represented by its `files` list; the `{'files': [...]}` wrapper is implied.
- **Removal glob.** `GenUtil.RemovalGlob` and `GenUtil.GlobMatches` read
  the deployment name literally; a name holding shell glob metacharacters
  or spaces, which the shell would expand or split, is not covered.
- **Falsy values.** Tests of the form `if not mig` treat only a missing
  value as false, not an empty JSON object.

**Contracts stated weaker than the source**

- StatusUtil.SumRequested: proved for any conversion passed in;
  `Converter(res, parseFloat)` is the one the source applies.
- StatusUtil.DisksForNode: the node's disks are stated through `DisksUsing`,
  which `DisksUsingIsUsedBy` relates to the pool filter.
- EsConfig.ValidateArgs: an empty argv is the usage error here, whereas
  `_usage` itself raises IndexError reading `argv[0]`, so the source ends
  with a traceback rather than the usage exit.
- EsConfig.Main: stops at the handler; what the four handlers do through
  gcloud and kubectl is left out.

## Findings

| source | as written | input that shows it | evidently intended | confidence | as-written member | corrected member |
|---|---|---|---|---|---|---|
| elasticsearch/es-config.py:50 | `_machine_type` defaults `vm_ram` to `'6gb'`, and `_vm_memory` accepts only an upper-case `GB` ending | a node configuration without `vm_ram`, such as `{"count": 3}`: `_vm_memory('6gb')` exits with "Invalid 'ram' value" | the default `'6GB'`, which gives `e2-custom-2-6144` | not executed | EsConfig.NodePools | EsConfig.NodePoolsIntended |
