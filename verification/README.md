# HLS Video Converter — a Dafny model

HLS Video Converter is an object-storage-triggered function. It takes an uploaded
video and does the following:

- picks a rendition ladder, meaning the catalogue rungs that are no larger than the
  probed source;
- transcodes the source once per rung into HLS variant playlists;
- writes a master playlist that lists the variants;
- uploads everything under a timestamped folder next to the source key;
- removes its working directory.

This project models the decision and formatting logic of that pipeline and proves
what it promises:

- `strings.dfy`, module `Text`: the `parseInt` leading-digit parse, decimal rendering
  of naturals, and joining and splitting on line breaks.
- `paths.dfy`, module `Paths`: the part of the `path` module the handler uses.
  That is base name, directory name, extension, stem and joining one segment.
- `service.dfy`, module `Service`:
  - the six-rung catalogue and the ladder filter;
  - variant names and transcode jobs;
  - the master playlist text;
  - the upload content type and key;
  - the upload loop, as a method over a listing and a per-key success oracle.
- `handler.dfy`, module `Handler`:
  - the format gate;
  - deriving the extension, base name, folder name, download path and output
    directory from the object key;
  - the handler itself.

The handler is modelled as three methods: `Handle`, `Convert` and `Publish`. They
run the steps in the source's order against a `World` of abstract step outcomes and
return the effects started and the outcome. Each method is proved equal to a
specification:

- `Plan` is the full effect sequence of a run.
- `HaltOf` is where the run stops and why.

Lemmas then prove the guarantees of a run about that specification:

- the effects are in step order;
- the run completes iff every step succeeds;
- the master is written only after all transcodes succeed;
- the directory is removed only when the removal step is reached;
- a run is caught at a step exactly when that step is the first to throw, and it
  is the step of the last effect;
- once a step throws, no effect of a later step starts, the removal included.

Three behaviours of the code shape the model:

- An empty ladder does not short-circuit (index.js:53-67, service.js:93-108). No
  transcode starts, but the master playlist, holding only its header, is still
  written and uploaded.
- A step that throws skips the `rmdirSync` cleanup (index.js:67-71), because the
  cleanup is the last statement of the `try` block.
- `decodeURIComponent` runs before the `try` (index.js:31). Its failure is the one
  error that escapes the handler (outcome `Escaped`). Every error inside the `try`
  is caught and logged (index.js:69-71; outcome `Caught(step)`).

## Model

| member | source | states |
|---|---|---|
| Text.ParseInt | service.js:211-212 | `parseInt` on unsigned decimal text: no number exactly when the text is empty or does not start with a digit |
| Text.LeadingDigits | service.js:211-212 | the parsed prefix is the longest run of leading digits: a digits-only prefix followed by a non-digit or the end |
| Text.ParseIntNatToString | service.js:96 | parsing the decimal text of n, followed by a non-digit suffix such as "k" or "p", gives back n |
| Text.NatToString | service.js:95-97 | a number renders as a non-empty digit string without a leading zero |
| Text.DigitsValueOfNatToString | service.js:95-97 | the digits of the rendered number have that number as their value |
| Text.NatToStringInjective | service.js:95-97 | two naturals render the same iff they are equal |
| Text.LeadingDigitsOfDigitsThen | service.js:211-212 | the leading digits of a digit string followed by a non-digit are that digit string |
| Text.LastIndexOf | index.js:32-33 | finds the last occurrence of a character, and reports none iff the character is absent |
| Text.LastIndexOfAfter | index.js:32-33 | in a, then c, then text without c, the last c is at the length of a |
| Text.EndsWith | service.js:130 | `.endsWith`; Service.ContentTypeIff uses it to choose the content type both ways |
| Text.SplitLines | service.js:99 | the inverse of the join, used to read the playlist back: splitting on "\n" always yields at least one piece |
| Text.SplitLinesSingle | service.js:99 | reading back: text without a line break splits into itself alone |
| Text.SplitLinesAfter | service.js:99 | reading back: a line break-free line followed by "\n" splits off as the first piece |
| Text.SplitJoinLines | service.js:99 | splitting the "\n"-join of line break-free lines gives the lines back |
| Text.JoinSplitLines | service.js:99 | joining the pieces of a split gives the text back |
| Text.JoinLines | service.js:99 | `.join("\n")`: its inverse on line break-free lines is SplitLines (Text.SplitJoinLines) |
| Text.Interleave | service.js:93-99 | alternates two equal-length lists: element i of the first at 2i and of the second at 2i+1 |
| Text.InterleaveNoLineBreak | service.js:93-99 | interleaving line break-free lines gives line break-free lines |
| Text.PairUp | service.js:93-98 | entry i is the first list's element i, "\n", then the second list's element i |
| Text.JoinPairUp | service.js:93-99 | joining the two-line pairs equals joining the interleaved lines |
| Paths.Basename | index.js:33 | the last segment has no '/', ends the path, and follows a '/' when it is not the whole path |
| Paths.Dirname | service.js:122 | the directory of a path is never empty; it is "." for a path with no '/' (a key at the bucket root) and "/" for a top-level path |
| Paths.DirnameBasename | service.js:122 | any other path with a '/' is its directory, a '/' and its base name |
| Paths.Extname | index.js:32 | the extension is the base name's suffix from its last '.', with no other '.'; it is empty exactly when the base name has no '.' after its first character or is ".." |
| Paths.Stem | index.js:33 | the stem followed by the extension is the base name, and it has no '/' |
| Paths.JoinUnder | index.js:36 | `path.join` of a directory and one segment; Paths.JoinUnderEndsWith, BasenameJoinUnder, DirnameJoinUnder and JoinUnderInjective state what it yields |
| Paths.JoinUnderEndsWith | index.js:36 | a joined path ends with the segment, after a '/' unless the directory is "." |
| Paths.BasenameJoinUnder | service.js:42 | the base name of a directory joined with a '/'-free segment is that segment |
| Paths.DirnameJoinUnder | index.js:45 | the directory of such a joined path is the directory it was joined under |
| Paths.SameBasename | index.js:32-33 | paths with the same base name have the same extension and stem |
| Paths.JoinUnderInjective | service.js:42 | joining under one directory is injective in the segment |
| Service.StripP | service.js:212 | when the text ends in "p" it is the result plus "p"; otherwise the result is the text unchanged |
| Service.Filter | service.js:209-213 | the filter keeps no more rungs than it is given |
| Service.RungWidth | service.js:211 | `parseInt(res.width)`; Service.CatalogueNumbers gives its value for each rung |
| Service.RungHeight | service.js:212 | `parseInt(res.resolution.replace(/p$/, ""))`; Service.CatalogueNumbers gives its value for each rung |
| Service.AtMost | service.js:211-212 | `<=` on a parseInt result, false for NaN; Service.LadderKeeps uses it to say which rungs are kept |
| Service.Fits | service.js:210-212 | both parsed dimensions are within the source's; Service.LadderKeeps states the ladder keeps exactly the fitting rungs |
| Service.FitsSource | service.js:210-212 | the filter callback; Service.FilterMembers and LadderKeeps state what it keeps |
| Service.FilterMembers | service.js:209-213 | a rung is kept iff it is in the input and the test accepts it |
| Service.FilterNoneFit | service.js:209-213 | when the test rejects every rung, nothing is kept |
| Service.FilterAllFit | service.js:209-213 | when the test accepts every rung, all are kept in order |
| Service.FilterKeepsFirst | service.js:209-213 | when the test accepts exactly the first m rungs, the result is those m |
| Service.FilterPrefixStep | service.js:209-213 | an accepted head followed by a filtered tail that is a prefix of the tail gives a prefix |
| Service.FilterAscendingIsPrefix | service.js:209-213 | filtering rungs ascending in both dimensions by size yields a prefix of them |
| Service.Catalogue | service.js:169-206 | the six rungs with their name, size, width and bitrate strings, in the source's order; their numbers are stated by Service.CatalogueNumbers |
| Service.SelectLadder | service.js:209-213 | the catalogue filtered by fit to the probed width and height; Service.LadderKeeps, LadderIsPrefix, LadderEmptyIff and LadderFullIff state which rungs it keeps |
| Service.RungNumbers | service.js:211-212 | a rung with decimal width, height + "p" and rate + "k" parses to those numbers |
| Service.CatalogueWidthStrings | service.js:169-206 | each rung's width text is the decimal text of its width |
| Service.CatalogueResolutionStrings | service.js:169-206 | each rung's name is its height in decimal followed by "p" |
| Service.CatalogueBitrateStrings | service.js:169-206 | each rung's bitrate is its kbit/s rate in decimal followed by "k" |
| Service.CatalogueNumbers | service.js:169-213 | the filter parses each rung to its listed width, height and rate |
| Service.CatalogueAscending | service.js:169-206 | parsed widths and heights both strictly ascend along the catalogue |
| Service.NumbersAscend | service.js:169-206 | the listed widths and heights strictly ascend |
| Service.NumbersBounded | service.js:169-206 | widths lie in 248..1920 and heights in 140..1080 |
| Service.NumbersFor640x360 | service.js:169-206 | exactly the first three rungs fit within 640 by 360 |
| Service.AscendingTail | service.js:169-206 | the tail of an ascending list is ascending |
| Service.AscendingMisfit | service.js:209-213 | if the first of ascending rungs does not fit, none fits |
| Service.LadderIsPrefix | service.js:169-213 | the selected ladder is a prefix of the catalogue, in catalogue order |
| Service.LadderKeeps | service.js:209-213 | a catalogue rung is selected iff its width is at most W and its height at most H |
| Service.LadderEmptyIff | service.js:169-213 | the ladder is empty iff W < 248 or H < 140 |
| Service.LadderFullIff | service.js:169-213 | the ladder has all six rungs iff W >= 1920 and H >= 1080 |
| Service.LadderFor640x360 | service.js:169-213 | a 640x360 source gets the 140p, 240p and 360p rungs |
| Service.VariantName | service.js:41 | a variant playlist name ends with ".m3u8" |
| Service.VariantNamesDistinct | service.js:41 | two rungs get the same variant name iff they have the same resolution name |
| Service.TranscodeJobs | service.js:38-42 | there is one job per rung |
| Service.TranscodeJobAt | service.js:38-63 | job i reads the source in its format and writes rung i's variant under the output directory, at rung i's size and bitrate |
| Service.AllSucceed | service.js:87 | `Promise.all` resolves only when every job does; Handler.TailDone and CaughtAtFirstFailure tie it to the run's outcome |
| Service.CatalogueResolutionsDistinct | service.js:169-206 | no two catalogue rungs share a resolution name |
| Service.LadderOutputsDistinct | service.js:38-42 | no two jobs for a selected ladder write the same output file |
| Service.StreamInfLines | service.js:93-97 | one stream-info line per rung |
| Service.BandwidthText | service.js:96 | when the bitrate parses, BANDWIDTH parses back to 1000 times its leading number ("NaN" otherwise) |
| Service.ResolutionAttrAsWritten | service.js:97 | RESOLUTION as written: width, "x", rung name; Service.ResolutionAsWrittenNotDecimal shows it is never a decimal resolution |
| Service.ResolutionAttr | service.js:97 | RESOLUTION corrected to width, "x", numeric height; Service.CatalogueStreamInf shows it is a decimal resolution for every rung |
| Service.StreamInfLineAsWritten | service.js:95-97 | the stream-info line as written, with BANDWIDTH, RESOLUTION and NAME; read back by Service.MasterPlaylistAsWrittenLines |
| Service.StreamInfLine | service.js:95-97 | the same line with the corrected RESOLUTION; it differs from the written line only there (Service.AsWrittenDiffersInResolution) |
| Service.MasterName | service.js:101 | the master playlist is `<fileName>.m3u8`; Service.PlaylistsUploadAsPlaylists shows it uploads as a playlist |
| Service.Uris | service.js:93-97 | one URI per rung |
| Service.MasterPlaylist | service.js:93-107 | the corrected text, with a decimal RESOLUTION: it starts with "#EXTM3U\n#EXT-X-VERSION:3\n" and is exactly that for an empty ladder |
| Service.MasterPlaylistAsWritten | service.js:93-107 | the text exactly as the code writes it: it starts with "#EXTM3U\n#EXT-X-VERSION:3\n" and is exactly that for an empty ladder |
| Service.MasterText | service.js:93-107 | header, then each stream-info line and its URI, joined by single line breaks: it starts with the header and is the header alone when there are no rungs |
| Service.StreamInfLinesAsWritten | service.js:93-97 | one as-written stream-info line per rung |
| Service.MasterTextLines | service.js:93-107 | read back line by line, a master text is the two header lines, then each stream-info line followed by its URI, with no trailing line break (one empty line when there are no rungs) |
| Service.MasterTextLineAt | service.js:93-107 | line 2+2i of a master text is stream-info line i and line 3+2i is URI i |
| Service.MasterTextsAgree | service.js:93-107 | two master texts with the same URIs differ at most in their stream-info lines |
| Service.MasterPlaylistAsWrittenLines | service.js:93-107 | the text as written reads back as the header lines, then each rung's as-written stream-info line and its URI |
| Service.AsWrittenDiffersInResolution | service.js:95-97 | the text as written and the corrected text have the same header and URI lines; their stream-info lines differ exactly in RESOLUTION, and differ whenever the rung name ends in "p", so the texts differ for such a ladder |
| Service.StreamInfLonger | service.js:97 | with a trailing "p" the as-written stream-info line is one character longer than the corrected one |
| Service.LadderLinesSingle | service.js:93-97 | no stream-info line, in either form, and no URI has a line break |
| Service.PlaylistLines | service.js:93-99 | line 2i is rung i's stream-info line and line 2i+1 its variant name, so there are twice as many lines as rungs |
| Service.StreamInfSingleLine | service.js:95-97 | both forms of a stream-info line have no line break when the rung's fields have none |
| Service.PlaylistLinesSingle | service.js:93-99 | no playlist line contains a line break |
| Service.HeaderLines | service.js:107 | the header followed by the joined body is the join of the two header lines and the body |
| Service.MasterPlaylistLines | service.js:93-107 | the master's lines are the two header lines and then, in ladder order, each rung's stream-info and URI lines (a single empty line for an empty ladder) |
| Service.JobOutputBasename | service.js:41-42 | the base name of job i's output is rung i's variant name |
| Service.MasterUrisAreJobOutputs | service.js:41-42 | every URI in the master is the base name of the output of the job for the same rung |
| Service.CatalogueStreamInf | service.js:95-97 | for each rung BANDWIDTH is 1000 times its kbit/s rate and parses back to it, and RESOLUTION is width "x" height in decimals |
| Service.NotDecimalResolution | service.js:97 | text ending in a non-digit is not a decimal resolution |
| Service.ResolutionAsWrittenNotDecimal | service.js:97 | for every rung, the RESOLUTION as written is not a decimal resolution |
| Service.ContentTypeIff | service.js:130-132 | the type is "application/x-mpegURL" iff the file ends with ".m3u8", otherwise "video/MP2T" |
| Service.ContentType | service.js:130-132 | the content type choice; Service.ContentTypeIff states it both ways |
| Service.UploadKey | service.js:121-125 | `path.join(path.dirname(key), folderName, file)`; Service.UploadKeyParts states its parts |
| Service.PlaylistsUploadAsPlaylists | service.js:130-132 | variant and master playlists upload as playlists |
| Service.UploadKeyParts | service.js:121-125 | the key puts the file directly in the output folder, and the folder directly in the source key's directory |
| Service.UploadKeyAtRoot | service.js:121-125 | for a source key at the bucket root the upload key is folder/file at the root |
| Service.UploadFolder | service.js:121-125 | `path.join(path.dirname(key), folderName)`, the same for every file of the loop; Service.UploadKeyParts states that it is the upload key's directory |
| Service.UploadRequest | service.js:117-133 | one PutObject request for a file of the output folder: the output bucket, the key under that folder and the content type; Service.UploadRequests states it carries the upload key |
| Service.UploadRequests | service.js:116-133 | one request per directory entry, in order, request i keyed by the upload key of entry i |
| Service.Attempted | service.js:116-137 | the loop starts at most all requests, and at least one when there are any |
| Service.AttemptedCount | service.js:116-137 | the loop starts exactly the requests up to and including the first failure, or all of them |
| Service.UploadAll | service.js:113-139 | sends the requests in listing order; succeeds iff every one succeeds; on failure stops right after the first failing put |
| Handler.ReplacePlus | index.js:31 | every '+' becomes a space and every other character is kept |
| Handler.Derive | index.js:32-36 | extension, base name, folder name, download path and output directory of a key; Handler.StemDotExt, DownloadPathParts and OutputDirParts state their parts |
| Handler.ExtOf | index.js:32 | the extension without its dot: empty when the key has none, and free of '.' and '/' |
| Handler.StemDotExt | index.js:32-36 | base name, ".", extension is the key's last segment |
| Handler.DownloadPathParts | index.js:35-36 | the download path is directly in "/tmp" and has the key's base name, extension and stem |
| Handler.OutputDirParts | index.js:34-45 | the output directory is "/tmp/" + folder, where folder is the base name, "_" and the timestamp's digits, which parse back to the timestamp |
| Handler.ExtOfInherited | index.js:32 | a key stem.name with no '.' or '/' in either part has extension name |
| Handler.GateAdmitsInheritedName | index.js:11-41 | the gate as written admits a key whose extension is an inherited property name, which the allow-list lacks |
| Handler.PrototypeKeysNotAllowed | index.js:11-22 | no inherited property name is an allowed format |
| Handler.GateAsWritten | index.js:11-41 | the lookup as written: listed formats and inherited property names pass (Handler.GateAdmitsInheritedName) |
| Handler.Supported | index.js:11-41 | the gate as intended, membership in the allow-list; the handler's outcome is Unsupported exactly when it fails (Handler.HandleCases) |
| Handler.Transcodes | service.js:38-87 | one transcode effect per job, in order |
| Handler.Puts | service.js:116-137 | one upload effect per request, in order |
| Handler.Tail | index.js:56-67 | the part after the probe has one transcode per job, one upload per request, and the master write, the listing and the removal |
| Handler.Run | index.js:44-67 | a full run has the setup's effects and the tail's |
| Handler.Setup | index.js:44-54 | mkdir, download and probe, in order; Handler.RunHalted states a run opens with them |
| Handler.LadderOf | index.js:54 | the ladder `generateResolutions` returns for the probed dimensions; Service.LadderKeeps and LadderIsPrefix state which rungs it holds |
| Handler.JobsOf | index.js:57-64 | the jobs and upload requests the run passes to the transcode and upload steps (with JobsFor and RequestsOf); Service.TranscodeJobAt and UploadRequests state their entries |
| Handler.AllPut | service.js:116-137 | the awaited upload loop completes only when every put succeeds; Handler.AllPutKeys states it per listed file, Handler.TailDone ties it to the outcome |
| Handler.AllPutKeys | service.js:116-137 | every request succeeds exactly when the put of each listed file's upload key does |
| Handler.MasterPath | service.js:101 | the master playlist's path under the output directory |
| Handler.MasterWrite | service.js:101-108 | the write of the corrected master playlist; Handler.MasterAfterTranscodes states when it happens |
| Handler.Plan | index.js:43-68 | every effect of a run in which no step throws; Handler.RunPrefix and StartedPrefix state its order |
| Handler.Succeeds | index.js:43-68 | every step of the try block completes; Handler.DoneIffSucceeds and SucceedsIffNoFailure tie it to the outcome |
| Handler.TailSplit | index.js:56-67 | each part of the tail extends the part before it |
| Handler.TailPutsPrefix | index.js:63-64 | the first p uploads follow the listing |
| Handler.RunRankAt | index.js:44-67 | the step of each effect of a run, by position |
| Handler.RunRanks | index.js:44-67 | every effect of a run has the step its position gives |
| Handler.RunPrefix | index.js:44-67 | any prefix of a run is in step order, holds the master write iff it passed all transcodes, and holds the removal iff it is the whole run |
| Handler.TailHalt | index.js:56-71 | the tail stops within its effects; it completes only when no tail step throws, and when it is caught at a step, that step throws and no earlier tail step does; a failed transcode stops after every job has started, and a failed put right after the first failing send |
| Handler.HaltFor | index.js:43-71 | for any jobs and requests: a run completes only when no step throws, and when it is caught at a step, that step throws and no earlier step does |
| Handler.HaltOf | index.js:43-71 | a run stops within its plan; it is done or caught; done only when no step throws; caught only at the first step that throws |
| Handler.StepFails | index.js:43-71 | which world outcome makes each step of the try block throw; Handler.CaughtAtFirstFailure ties it to the caught step |
| Handler.Fails | index.js:43-71 | the same for the jobs and requests of a supported key's run |
| Handler.FirstFailure | index.js:43-71 | a step throws and no earlier step does; at most one step is first (Handler.FirstFailureUnique) |
| Handler.FirstFailureUnique | index.js:43-71 | two steps that are each the first to throw are the same step |
| Handler.CaughtAtFirstFailure | index.js:43-71 | a run is caught at step s exactly when s is the first step that throws |
| Handler.NothingAfterFailure | index.js:43-71 | when a step throws, the run is caught, and no effect of a later step is started, the rmdir cleanup included |
| Handler.RunNothingAfterFailure | index.js:43-71 | for a run built from any parts, once a step throws the run is caught and starts no effect of a later step |
| Handler.Handle | index.js:26-72 | one invocation: escapes on a bad key, returns before any effect on an unsupported extension, and otherwise starts the plan up to where it stops |
| Handler.Expected | index.js:26-72 | the reference behaviour one invocation is proved equal to; Handler.HandleCases states its cases |
| Handler.DecodedKey | index.js:31 | `decodeURIComponent` of the key with '+' replaced, None when decoding throws; Handler.HandleCases states that this is exactly the escaping case |
| Handler.Convert | index.js:43-71 | the try block starts exactly the plan's effects up to the first step that throws, and ends with that step caught or done |
| Handler.RunHalted | index.js:43-71 | a run whose mkdir, download or probe throws stops right after that effect with that step caught; otherwise it is the setup followed by the part of the tail that runs, ending as the tail does |
| Handler.Started | index.js:43-71 | the effects a run starts: the plan up to where it halts; Handler.StartedPrefix and RunGuarantees state its properties |
| Handler.Publish | index.js:56-68 | steps 4 to 7 start the tail's effects up to the first step that throws |
| Handler.StartedPrefix | index.js:43-71 | what a run starts is a prefix of the plan in step order, with the master write iff it passed all transcodes |
| Handler.TailDone | index.js:56-68 | a tail completes iff every transcode, the write, the listing, every upload and the removal succeed; a completed tail is whole |
| Handler.SucceedsIffNoFailure | index.js:43-71 | every step completes exactly when no step throws |
| Handler.HaltForDone | index.js:43-71 | a completed run has started all 6 + jobs + requests effects |
| Handler.DoneIffSucceeds | index.js:43-71 | a run completes iff every step succeeds, and a completed run started the whole plan |
| Handler.MasterAfterTranscodes | index.js:56-61 | the master playlist is written only after every transcode succeeded |
| Handler.RemovedIffReached | index.js:66-71 | the directory is removed iff the run completed or was caught at the removal; a run that removed it had no failing step before the removal |
| Handler.TailHaltRank | index.js:56-70 | a tail caught at a step stops just after an effect of that step |
| Handler.HaltForRank | index.js:43-70 | for any jobs and requests, a run caught at a step stops just after an effect of that step |
| Handler.HaltRank | index.js:43-70 | a run caught at a step stops just after an effect of that step |
| Handler.CaughtAtLast | index.js:43-70 | a caught error belongs to the last effect started |
| Handler.RunCaughtAtLast | index.js:43-70 | for a run built from any parts, the last effect started before a throw is one of the step that threw |
| Handler.RankInjective | index.js:44-67 | distinct steps have distinct positions in the step order |
| Handler.RunGuarantees | index.js:43-71 | a run of a supported key: prefix of the plan, in step order; completes iff every step succeeds, and then runs the whole plan; master only after all transcodes; removal iff reached; caught at step s iff s is the first step that throws, and that is the last effect's step; no effect of a step after a failing one; never escapes |
| Handler.HandleCases | index.js:26-72 | a run escapes iff the key fails to decode; an escaped or unsupported run starts nothing; unsupported iff the extension is not allowed; otherwise the run is the started plan, caught exactly at the first step that throws, with no effect of any later step |

## Left out

- The object-storage client is not modelled. Downloads and uploads are effects in a
  trace, and whether each one succeeds is a field of `World`. The download stream
  pipeline is not modelled.
- ffmpeg and ffprobe are not modelled. The probe's result is an optional width and
  height in `World`. Each transcode job's success is a predicate `jobOk`. The ffmpeg
  output options, the aspect ratio and the padding are not modelled. The binary
  paths are configuration and are left out.
- The `Promise.all` fan-out is not modelled as concurrency. All jobs are started,
  and the conversion fails iff some job fails. The order in which jobs finish is
  not modelled.
- Filesystem calls are effects, and their success is a `World` field. This covers
  `mkdirSync`, `writeFileSync`, `readdirSync` (whose listing is an input) and
  `rmdirSync`. File contents other than the master playlist are not modelled.
- `Date.now()` is the input `now`.
- `decodeURIComponent` is a partial function supplied in `World`. Percent-decoding
  itself is not modelled.
- Path handling is modelled as a split at the last '/' and at the last '.' of the
  base name. Node's normalisation of "//", ".", ".." and trailing slashes is not
  modelled.
- Text.ParseInt: leading whitespace, a sign and the "0x" prefix, which JavaScript's `parseInt` accepts, are not modelled. The core only parses the catalogue's unsigned digit-led strings.
- The event is assumed to hold `Records[0].s3`. A malformed event is not modelled.
- The output bucket, read from the environment, is a string in `World`.
- Logging is not modelled, and neither is the manual test driver.
- Service.UploadAll: the uploads are modelled one after another. A failing put
  stops the loop, as the awaited `send` rejects. Streams opened for files are not
  modelled.
- Service.TranscodeJobs: a job records its input, format, output path, size and
  bitrate. The fixed option list passed to ffmpeg is not recorded.

## Findings

| source | as written | input that shows it | evidently intended | confidence | as-written member | corrected member |
|---|---|---|---|---|---|---|
| service.js:97 | the RESOLUTION attribute is the width, "x" and the rung name including its "p" | any rung; the 140p rung gives "248x140p" | a decimal resolution "248x140", as RFC 8216 section 4.2 requires for RESOLUTION | high, not executed | Service.ResolutionAsWrittenNotDecimal | Service.CatalogueStreamInf |
| index.js:38 | the gate looks the extension up as a property of a plain object, so inherited property names pass | the key "clip.constructor" (extension "constructor") passes the gate | only the nine listed formats pass | medium, not executed | Handler.GateAdmitsInheritedName | Handler.HandleCases |

The code's own master playlist text is `Service.MasterPlaylistAsWritten`.
`Service.AsWrittenDiffersInResolution` proves it has the same lines as the corrected
text except for the RESOLUTION value of each stream-info line. The handler in the
model writes the corrected text, `Service.MasterPlaylist`.

The handler in the model gates on `Handler.Supported`, which is membership in the
allow-list. `Handler.GateAsWritten` keeps the gate as written.
