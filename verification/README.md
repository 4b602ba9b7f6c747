# What six of aiwatcher's scripts promise, proved

aiwatcher ships scripts that seed it, exercise it, deploy it and measure it. Six of them decide
something that has to come out right every time, whatever is drawn at random, whatever a cluster
holds and whichever thread moves next. This project models those six in Dafny and proves what
their comments and names promise; where a promise does not hold, it proves exactly when it does.

* **Traces** (`scripts/seed-dev.py`). A timeline with one clock and a counter per run; model calls,
  tool calls, agent runs, workflow executions and the published history that write to it. Every
  random draw is an arbitrary value in its range. Two acceptors say what a well-formed trace is:
  `CallBrackets` (calls as brackets) and `AgentTrace` / `WorkflowTrace` (who may say what, when);
  the methods are proved to write only accepted traces, and lemmas say what acceptance means.
* **Images and labels** (`scripts/e2e-mini-train.py`). PNG filters and framing (RFC 2083 sections
  3.2 and 6), the drawing of a plan, its labels, the rasteriser, the features read back and the
  training loop. The end of it is `Labels.Prepare`: for every seed the derived labels agree with the
  pixels that are served back.
* **Detection** (`deploy/scripts/detect-stack.py`). Which pod and Service are found, which domain is
  derived, when an ingress rule is attached, what that does to the pods behind the Service, and
  what the second, third and every later install decides.
* **Queries** (`benchmarks/curation`). The corpus generator and the three queries written several
  ways over nullable columns, with the exact conditions under which the forms agree.
* **The door** (`scripts/e2e-agent-outbox.py`). A lock-protected proxy as one machine whose acceptor,
  controller and pumps step in any order.
* **Comment blocks** (`scripts/lint-comments.py`). A one-pass scanner against the blocks of a file.

`dafny verify dfyconfig.toml` checks everything.

## Where the code and its words differ

* `fenced_by_policy` argues that attaching a rule to fenced pods only widens. It does for the pod
  whose labels it looked at; the rule is attached by the Service's selector, and it takes paths from
  every other pod behind the Service that nothing fenced (`Reinstall.WidensForAllIff`,
  `Reinstall.SharedServiceFlips`).
* The filter on `part-of: aiwatcher` is there so that a second run decides what the first one did.
  That holds exactly when no attached rule selects a pod that was found unfenced
  (`Reinstall.SecondRunAgreesIff`). `Reinstall.SharedServiceExists` spells out a cluster, and the one
  its install leaves behind, on which it does not. From the third install on every run decides the
  same (`Reinstall.LaterRunsAgree`).
* The note `as_helm_values` writes says that with `AIWATCHER_DETECT=off` nothing is overridden. The
  code marks every finding as an override there, so values are written
  (`Install.DetectionOffStillDecides`). The chart's defaults apply exactly when the cluster was asked
  and did not answer and nothing is forced (`Install.ChartDefaultsIff`).
* The comment on the retry at `scripts/seed-dev.py:435` calls it the same request again. Temperature,
  token limit, `top_p` and `seed` are drawn afresh for every call, so the model and the prompt recur
  and the request as a whole only when the two draws coincide (`AgentRuns.RefusedCallIsRepeated`);
  any two draws give a well-formed run (`AgentRuns.RetryMayDiffer`).
* `decode_png` accepts a last row that lacks its last pixel when its filter type is 0
  (`PngFile.RoundTrip`).
* A run whose outcome is to fail does so exactly when the agent chosen for it draws at least one call;
  the trace is well formed either way (`AgentRuns.AgentRun`).
* The runs of an execution are all different only if no node is called `driver`
  (`WorkflowTrace.RunsDistinct`).

## Model

| member | source | states |
|---|---|---|
| Timelines.Timeline.Emit | scripts/seed-dev.py:276-305 | one event is appended at the new clock, numbered one more than its run's last; a clock that had not gone back still has not |
| Timelines.Timeline.Wait | scripts/seed-dev.py:307-308 | only the clock moves |
| Timelines.BeforeIsPrefix | scripts/seed-dev.py:310-312 | on a clock that never goes back the cut keeps a prefix: exactly the events up to the moment |
| Timelines.SequencesRise | scripts/seed-dev.py:286-292 | within a run sequence numbers rise with position |
| Timelines.SequencesCover | scripts/seed-dev.py:286-292 | a run's events are numbered 1 to n without a gap |
| Timelines.EventIdsUnique | scripts/seed-dev.py:286-288 | no two events of a timeline share an id, across all its runs |
| Timelines.RenderInjective | scripts/seed-dev.py:357-405 | the rendered call ids name their calls, and the rendered attempt ids their attempts |
| AgentRuns.LlmCall | scripts/seed-dev.py:346-399 | the events of a call: refused at once, answered whole, or streamed in 6 to 14 chunks, under an id no earlier event had; every one of them in its time, and a streamed reply in the time of a whole one |
| AgentRuns.Answer | scripts/seed-dev.py:372-399 | a reply takes the same time streamed or whole, and ends with its completion |
| AgentRuns.ToolCall | scripts/seed-dev.py:402-412 | a tool call is its start and its end, completed or failed, each in its time |
| AgentRuns.Round | scripts/seed-dev.py:427-445 | one round adds at most one tool, which fails if that is due; a refused attempt and the pause after it if that is due; and the call itself, which ends the run exactly when it is the doomed agent's last; every event comes in its time |
| AgentRuns.TakeTurn | scripts/seed-dev.py:423-449 | one agent's turn takes the trace from between agents to between agents, or to the failed end, with as many calls as it drew; what is due of the refusal and the tool failure is paid at the first call and the first tool |
| AgentRuns.AgentRun | scripts/seed-dev.py:415-450 | for every draw the trace is accepted by both acceptors and every event comes in its time; it fails if and only if the outcome says so and the doomed agent draws a call; it has exactly the refusals and failed tools its outcome asks for, where there is a call and a tool to pay them with |
| AgentRuns.RefusedCallIsRepeated | scripts/seed-dev.py:434-445 | a refused call is either its agent's end or followed at once by a call to the same model with the same prompt under a new id; the whole request recurs if and only if the drawn parameters do |
| AgentRuns.RetryMayDiffer | scripts/seed-dev.py:357-366 | for any two draws of the parameters there is a complete, well-bracketed run that retries with them; the two requests are equal if and only if the draws are |
| AgentRuns.CallsCloseInTurn | scripts/seed-dev.py:424-449 | every call an agent opens closes before that agent ends |
| CallBrackets.CallIdsUnique | scripts/seed-dev.py:357-405 | no two calls of an accepted trace share an id, tools and models together |
| CallBrackets.EveryCallClosesOnce | scripts/seed-dev.py:370-412 | every call is closed exactly once, by its own agent and run, with nothing but its stream in between |
| CallBrackets.CloseHasStart | scripts/seed-dev.py:370-412 | every close has the start it belongs to |
| CallBrackets.RefusalFollowsRequest | scripts/seed-dev.py:370-377 | a refusal comes straight after the request it refuses |
| CallBrackets.ChunksInOrder | scripts/seed-dev.py:380-385 | a streamed reply is its first token and then chunks 0, 1, 2, … one after another |
| AgentTrace.Enclosed | scripts/seed-dev.py:419-450 | the run's start is the first event and its only start; the last event is the only terminal one, and is `run.failed` exactly when the run failed |
| AgentTrace.AgentsInOrder | scripts/seed-dev.py:423-424 | agents start in the scenario's order, all of them in a run that succeeds |
| AgentTrace.EveryTurnIsPlayed | scripts/seed-dev.py:424-449 | the n-th agent to start is the scenario's n-th; its turn ends before the next begins, asks one of its models throughout, uses its own tools only, and has as many calls as it may draw |
| AgentTrace.HandsOff | scripts/seed-dev.py:446-449 | every agent but the last ends by handing off to the next |
| AgentTrace.RefusalIsAnswered | scripts/seed-dev.py:434-444 | after a refusal comes the agent's failure with that error, or a call to the same model with the same prompt |
| AgentTrace.RetryIsEarly | scripts/seed-dev.py:434-438 | a refusal is tried again only for an error that is worth it, and before the run's first answer |
| AgentTrace.PromptIsFirst | scripts/seed-dev.py:433 | only the first round of the run's first agent carries a prompt |
| AgentTrace.FailedToolIsFirst | scripts/seed-dev.py:428-432 | a tool fails only as the first one the run uses |
| AgentTrace.FailureIsFatal | scripts/seed-dev.py:439-444 | a failed run ends with a fatal refusal, its agent's failure with that error, and a message that names the agent and the error |
| Histories.History | scripts/seed-dev.py:477-511 | every published run is a beginning of a complete one: all of it up to now, but for the first five, which are cut short; `running` counts exactly the runs of which something is missing, and the three counts add up |
| Histories.Seed | scripts/seed-dev.py:484-510 | one run of some scenario under its place's id: begun as long ago as its place asks, played to its end with every event in its time, cut as its place asks, and counted as what is left of it shows |
| Histories.Keep | scripts/seed-dev.py:505-507 | the cut keeps the prefix up to now; a stalled one keeps at least three of its events where it has them, and always drops the terminal event |
| Histories.VerdictIsTruth | scripts/seed-dev.py:509-510 | reading the last kept event's type says running exactly when the kept events are a proper prefix, and otherwise how the run ended |
| Histories.StartOf | scripts/seed-dev.py:466-494 | when a stalled, a recent and any other run began |
| Histories.IdsUnique | scripts/seed-dev.py:503-508 | no two published events of a history share an id |
| Executions.Execution | scripts/seed-dev.py:607-647 | for every topology whose node ids are distinct, every outcome and every draw the trace is accepted and every event comes in its time; it fails exactly when the outcome is "failed", and has one failed attempt exactly when the outcome asks for one |
| Executions.RunNodes | scripts/seed-dev.py:613-646 | all nodes in turn keep the trace accepted; it stops early exactly when the outcome is "failed", at the node chosen to fail |
| Executions.RunNode | scripts/seed-dev.py:613-646 | one node's run, with its retry after a pause or its failure, keeps the trace accepted and in time |
| Executions.Attempt | scripts/seed-dev.py:619-645 | an attempt makes its agent's call if its node has one, and then fails with its node's error, or produces its artifact and completes |
| Executions.AskAgent | scripts/seed-dev.py:624-625 | the step of a node with an agent goes on only once the agent's call is answered; a node without one makes no call |
| WorkflowTrace.EdgesRespected | scripts/seed-dev.py:529-538 | a step starts only when each predecessor has completed, or is optional and appears nowhere |
| WorkflowTrace.StartsInOrder | scripts/seed-dev.py:613-623 | steps start in the topology's order, so a failed execution starts no later node |
| WorkflowTrace.AgentIsCalled | scripts/seed-dev.py:623-645 | every attempt at a node that has an agent opens at once with a call by that agent to claude-opus-5 without a prompt; it is answered with nothing but its stream in between, and the next event is the attempt's failure or its artifact |
| WorkflowTrace.CallsHaveAgent | scripts/seed-dev.py:624-625 | no call appears in the run of a node without an agent, nor in the driver's |
| WorkflowTrace.AttemptIsFramed | scripts/seed-dev.py:616-646 | an attempt starts right after its node's run or right after the failed attempt before it, completes right after its artifact, and the node's run completes right after that |
| WorkflowTrace.FailuresAreEvents | scripts/seed-dev.py:627-635 | the failures counted are the `step.failed` events, in order, under their attempts' ids |
| WorkflowTrace.FailureIsRetried | scripts/seed-dev.py:618-635 | in an execution that succeeds a failed step starts again at once and completes under a different call id |
| WorkflowTrace.FailureIsLast | scripts/seed-dev.py:630-633 | a failed execution ends with the failed step, its node's run and the driver's run |
| WorkflowTrace.DriverEncloses | scripts/seed-dev.py:608-647 | unless a node is called "driver", the driver's run opens first, its one terminal event is the last of the execution and says whether it failed |
| WorkflowTrace.RequiredComplete | scripts/seed-dev.py:611-647 | an execution that succeeds completed every node it may not skip |
| WorkflowTrace.RunsDistinct | scripts/seed-dev.py:608-616 | the runs of an execution are all different if and only if node ids are and none is "driver" |
| PngFilter.NearestIsPaeth | scripts/e2e-mini-train.py:142-148 | the `min` over keyed pairs is the Paeth predictor of RFC 2083 section 6.6, ties included |
| PngFilter.EachTypeAdds | scripts/e2e-mini-train.py:132-148 | what each of the five types adds to a raw byte: nothing, the byte to the left, the one above, half their sum, the nearest of three |
| PngFilter.DecodeUndoesFilter | scripts/e2e-mini-train.py:132-151 | decoding a row inverts each of the five filters |
| PngFilter.FilterUndoesDecode | scripts/e2e-mini-train.py:132-151 | filtering a decoded row gives the raw bytes back |
| PngFilter.DecodeRow | scripts/e2e-mini-train.py:128-152 | the in-place loop decodes a row, and raises on a missing byte or an unknown filter exactly where the code does |
| PngFile.Be32ReadsBack | scripts/e2e-mini-train.py:84-91 | four big-endian bytes read back |
| PngFile.Encode | scripts/e2e-mini-train.py:76-97 | the file written for any pixels, its header always 64 by 48 |
| PngFile.EncodedIsSealed | scripts/e2e-mini-train.py:76-97 | the file byte by byte: the signature, a header that says 64 by 48 in eight bits of grey, one chunk of data and the end marker, each with its length before and the checksum of its type and data after it |
| PngFile.ScanFile | scripts/e2e-mini-train.py:109-122 | the chunk loop, with its errors, on any bytes |
| PngFile.Decode | scripts/e2e-mini-train.py:100-153 | every result of decoding any bytes, errors included |
| PngFile.DataAccumulates | scripts/e2e-mini-train.py:110-122 | image data accumulates however it is split, and other chunks leave no trace |
| PngFile.DecodeRecovers | scripts/e2e-mini-train.py:100-153 | decoding recovers the image from any standard file of it: any filter per row, any split of the data, other chunks in between, anything after the end |
| PngFile.RoundTrip | scripts/e2e-mini-train.py:76-153 | decoding an encoded image gives it back if and only if it was 48 rows of 64, the last perhaps one pixel short |
| PngFile.NotPngIff | scripts/e2e-mini-train.py:107-108 | bytes are told to be no PNG if and only if they do not begin with the signature |
| PngFile.OnlyGrey8 | scripts/e2e-mini-train.py:114-117 | a header of another depth or colour is refused wherever it stands before the end marker, and one too short to say raises |
| PngFile.OnlyFiveFilters | scripts/e2e-mini-train.py:149-150 | a filter type beyond the five is refused after any rows that decode |
| Plans.Draw | scripts/e2e-mini-train.py:171-175 | ink on exactly the pixels of the line that are on the canvas |
| Plans.Paint | scripts/e2e-mini-train.py:166-187 | the picture of a seed: clutter over ink over paper |
| Plans.Plan | scripts/e2e-mini-train.py:159-219 | the encoded picture and the labels of a seed |
| Plans.LabelsAreTrue | scripts/e2e-mini-train.py:159-164 | a pixel is clutter exactly inside the polygon to ignore, and elsewhere ink exactly where some edge is labelled and paper where none is |
| Plans.EdgesAreNamed | scripts/e2e-mini-train.py:199-205 | the outer edges bound the plan on the sides they are named after, and the inner one runs between two of them |
| Plans.CollectEdges | scripts/e2e-mini-train.py:419-424 | the points of the annotations whose id begins with "edge", in order; an error if and only if one of them has no points |
| Raster.TargetGrid | scripts/e2e-mini-train.py:225-244 | every write is on the grid, and the cells written are exactly those some edge's walk passes through, for any real end points |
| Raster.GridOfBoth | scripts/e2e-mini-train.py:233-243 | the grid of two lists of edges is the pointwise or of theirs |
| Raster.EdgeReversed | scripts/e2e-mini-train.py:234-243 | listing an edge from its other end marks the same cells |
| Raster.SamplesClose | scripts/e2e-mini-train.py:237-241 | successive samples are less than two pixels apart on each axis |
| Raster.CellsChain | scripts/e2e-mini-train.py:237-243 | so the cells visited form an 8-connected chain |
| Raster.CrossesIffCovers | scripts/e2e-mini-train.py:171-175 | the walk along an axis-aligned edge between whole pixels passes through exactly the cells that hold a pixel of its drawing |
| Features.Extract | scripts/e2e-mini-train.py:247-291 | one row of eight numbers per cell, and an error exactly when some window has a missing pixel |
| Features.FeaturesRead | scripts/e2e-mini-train.py:276-291 | which number comes from where: one, the cell's darkest pixel, its mean, the darkest pixel of the cell above, below, left and right, nothing where there is no such cell, and the square of the second |
| Features.MeanReads | scripts/e2e-mini-train.py:268-269 | the mean darkness moves with each of the sixteen pixels alike, and over one shade is that shade's darkness |
| Features.FeaturesInRange | scripts/e2e-mini-train.py:268-291 | every feature lies between zero and one |
| Labels.MarkedIffDrawn | scripts/e2e-mini-train.py:225-244 | for any axis-aligned drawing the derived label of a cell says whether one of its pixels is covered |
| Labels.WallShows | scripts/e2e-mini-train.py:177-187 | the clutter may hide part of a wall but never all of it in a cell, also where the seed puts it over the divider |
| Labels.MarkedIffInk | scripts/e2e-mini-train.py:159-244 | for every seed a cell is marked exactly when one of its sixteen pixels is ink |
| Labels.DarkestSeparates | scripts/e2e-mini-train.py:248-269 | the darkest feature is 1 - 20/255 in every marked cell and at most 1 - 170/255 in every other |
| Labels.Prepare | scripts/e2e-mini-train.py:377-431 | end to end: draw, encode, decode, derive the labels, read the features; for every seed they tell the labels apart cell by cell |
| Trainer.Learn | scripts/e2e-mini-train.py:457-459 | one sample moves every weight in place by the error made with the weights before, and the sample's own score towards its target |
| Trainer.ScoreMoves | scripts/e2e-mini-train.py:455-459 | the score of any row moves by the gain times how alike the two rows are; the gain is positive for a marked cell and negative for an unmarked one, and n times it is four times what the prediction fell short by |
| Trainer.LearnsTowards | scripts/e2e-mini-train.py:455-459 | the sample's score strictly rises where its cell is marked and strictly falls where it is not, unless its row is all zero |
| Trainer.ErrorFalls | scripts/e2e-mini-train.py:455-459 | for a sigmoid that rises the error on a sample is never larger after learning from it |
| Trainer.PredictSaturates | scripts/e2e-mini-train.py:297-300 | within 30 either way a prediction is the sigmoid of the score, and beyond that all scores predict alike |
| Trainer.Train | scripts/e2e-mini-train.py:439-460 | the nested loop computes the iterated update, sample after sample and pass after pass |
| Trainer.TrainsTowards | scripts/e2e-mini-train.py:452-459 | at every sample of every pass training moves that sample's score towards its target |
| Trainer.WeightsBounded | scripts/e2e-mini-train.py:454-460 | after k passes no weight is beyond 4k in size, for any sigmoid and any training set; after the first pass not even at it |
| Order.FirstIsLeast | deploy/scripts/detect-stack.py:289-293 | the first match of a list sorted by a key is a match of least key |
| Order.LessIff | deploy/scripts/detect-stack.py:286-293 | one string sorts before another exactly when it ends or has the smaller character where the two part |
| Detect.ServiceFor | deploy/scripts/detect-stack.py:293-303 | the inner loop finds the first Service by name that serves the pod on the port |
| Detect.Find | deploy/scripts/detect-stack.py:277-319 | the two loops with their early returns, and the reason given when nothing is found |
| Detect.FindsLeast | deploy/scripts/detect-stack.py:277-319 | something is found if and only if a matching pod has a Service on the port; it is the pod of least rank and its Service of least name |
| Detect.MissingIsTold | deploy/scripts/detect-stack.py:279-319 | where nothing is found no pair is usable, and the reason is that no pod matches, or names the matching pod of least rank and the port |
| Detect.PreferredWins | deploy/scripts/detect-stack.py:282-287 | a usable pod in the namespace being installed into wins over any elsewhere |
| Detect.FindIgnoresOrder | deploy/scripts/detect-stack.py:277-319 | with unique names the finding does not depend on listing order |
| Detect.FindSame | deploy/scripts/detect-stack.py:277-319 | the finding depends on no more than the set of pods and which Services serve them |
| Policies.LabelSelectorMatches | deploy/scripts/detect-stack.py:224-248 | the search over labels and expressions is what Kubernetes means by a label selector |
| Policies.OperatorsMean | deploy/scripts/detect-stack.py:234-247 | each operator in terms of plain labels: one of several, none of them, any, none at all; an operator of another name asks nothing |
| Policies.FencedByPolicy | deploy/scripts/detect-stack.py:251-274 | the name of the first ingress policy of the namespace that selects the pod |
| Policies.FenceNameTells | deploy/scripts/detect-stack.py:728-730 | a non-empty name means fenced, as long as every policy has one |
| Policies.AcceptsAfter | deploy/scripts/detect-stack.py:254-263 | what a pod accepts once a policy is added: unchanged, widened, or narrowed, and when each |
| Policies.NarrowedExactly | deploy/scripts/detect-stack.py:254-263 | a pod loses a path if and only if the new policy selects it and nothing fenced it before |
| Domains.JoinUndoesSplit | deploy/scripts/detect-stack.py:329-330 | joining the labels of a host gives it back |
| Domains.SplitUndoesJoin | deploy/scripts/detect-stack.py:329-330 | splitting joined labels gives them back |
| Domains.SiblingBase | deploy/scripts/detect-stack.py:322-330 | the derived host is under the base it came from if and only if that base has two or more labels |
| Domains.SiblingsShareBase | deploy/scripts/detect-stack.py:322-330 | hosts that differ in their first label share the base they are under |
| Domains.ShortHostIsBase | deploy/scripts/detect-stack.py:325-330 | a host of one or two labels is its own base |
| Domains.CollectHosts | deploy/scripts/detect-stack.py:335-350 | the hosts that speak: not aiwatcher's own, not empty, no wildcard |
| Domains.Tally | deploy/scripts/detect-stack.py:360-362 | the dictionary counts the hosts under each base |
| Domains.FirstTwoDecide | deploy/scripts/detect-stack.py:364-369 | comparing the first two sorted entries decides: the first is the strict plurality, or there is none |
| Domains.DeriveDomain | deploy/scripts/detect-stack.py:333-378 | no host, a tie, or the plurality's base; a base is named if and only if it has strictly more hosts than every other |
| Domains.DerivedIffPlurality | deploy/scripts/detect-stack.py:357-378 | a base is named if and only if it has strictly more hosts than every other among those considered |
| Domains.DerivedFromForeign | deploy/scripts/detect-stack.py:336-378 | the answer depends on other releases' Ingresses only, and not on their order |
| Domains.NamespaceComesFirst | deploy/scripts/detect-stack.py:355-358 | where the hosts of the namespace being installed into agree on a base it is the domain; the rest of the cluster decides only where that namespace has none; silence exactly when no host speaks |
| Domains.OthersHaveNoSay | deploy/scripts/detect-stack.py:355-358 | once that namespace has a host, Ingresses of other namespaces change nothing |
| Install.FindOne | deploy/scripts/detect-stack.py:720-731 | overrides first, then detection, with the fence looked for on the matched pod's labels |
| Install.AbsenceIsTold | deploy/scripts/detect-stack.py:678-725 | why nothing is said of a target, and which of the reasons count as an override |
| Install.SilenceIsTold | deploy/scripts/detect-stack.py:680-737 | why no host is derived, and which of the reasons count as an override |
| Install.Run | deploy/scripts/detect-stack.py:666-739 | the findings and the domain of one run, cluster reached or not |
| Install.ChartDefaultsIff | deploy/scripts/detect-stack.py:485-496 | nothing is overridden if and only if detection is on, the cluster did not answer, no domain is forced and no target has a URL set |
| Install.ValuesFollow | deploy/scripts/detect-stack.py:498-550 | where the cluster was read each store's mode, URL, namespace and selector are those of the best pod and Service found of that store, installed exactly when there is none; its flag is set exactly when a policy of the namespace fences that pod; the host is aiwatcher's under the plurality's base; an override decides alone |
| Install.ValuesForced | deploy/scripts/detect-stack.py:498-550 | where no cluster was read the values are what was forced and nothing else |
| Install.DetectionOffStillDecides | deploy/scripts/detect-stack.py:678-684 | with detection off and nothing forced, values are written all the same: both stores installed, no host |
| Reinstall.FlagsAreRules | deploy/scripts/detect-stack.py:530-550 | each flag of the values is set exactly when a rule is attached for that store |
| Reinstall.AttachingWidens | deploy/scripts/detect-stack.py:530-550 | where a flag is set the matched pod accepts what it did and the Collector, on one port; elsewhere nothing is attached |
| Reinstall.WidensForAllIff | deploy/helm/aiwatcher/templates/networkpolicy.yaml:344-384 | the attached rule takes nothing from any pod if and only if every pod behind the Service was fenced |
| Reinstall.RunViews | deploy/scripts/detect-stack.py:714-731 | what a run decides of a target is a matter of what other releases own and of the rules already attached, nothing else |
| Reinstall.SecondRunAgreesIff | deploy/scripts/detect-stack.py:714-718 | a second run decides the same of every target, host, mode and flag if and only if no attached rule selects a pod that was found unfenced |
| Reinstall.SharedServiceFlips | deploy/scripts/detect-stack.py:254-263 | a family of clusters in which the rule narrows a pod, and in which the next install, over the same cluster with the rule added, decides otherwise |
| Reinstall.SharedServiceExists | deploy/scripts/detect-stack.py:254-263 | one such cluster and the one its install leaves behind, spelled out, with different decisions |
| Reinstall.InstallsSettle | deploy/scripts/detect-stack.py:714-718 | in any chain of installs, each seeing the rules the one before attached, every install from the second on attaches the same rules |
| Reinstall.LaterRunsAgree | deploy/scripts/detect-stack.py:714-718 | in any such chain all runs from the third on decide the same |
| Corpus.Generate | benchmarks/curation/generate.py:184-228 | it ends, with at least the target written and less before the last part; the parts cover the rows without gap or overlap, at most a million each; every row is its number's; runs is rows over twelve, rounded up |
| Corpus.Chunk | benchmarks/curation/generate.py:96-176 | the rows of a part are numbered on from its first |
| Corpus.RunIdInjective | benchmarks/curation/generate.py:143 | run ids name runs |
| Corpus.TraceIdInjective | benchmarks/curation/generate.py:144-145 | trace ids name runs, whatever the scrambling does |
| Corpus.SpanIdInjective | benchmarks/curation/generate.py:146 | span ids name rows |
| CorpusFacts.SpanIdsUnique | benchmarks/curation/generate.py:146 | no two rows of a corpus share a span id |
| CorpusFacts.TracesAreRuns | benchmarks/curation/generate.py:143-145 | two rows share a trace id exactly when they are of one run |
| CorpusFacts.ParentIsFirstOfRun | benchmarks/curation/generate.py:147-149 | the first row of a run has no parent and is every other row's, also when the run straddles two parts |
| CorpusFacts.RunsCounted | benchmarks/curation/generate.py:222 | `runs` is the number of distinct run ids |
| CorpusFacts.EveryRow | benchmarks/curation/generate.py:136-174 | a model call names a model of the price table and counts tokens both ways; no other row has either |
| CorpusFacts.RowsCohere | benchmarks/curation/generate.py:136-176 | what the columns of a row say of each other: an error exactly where the span failed, the operation of its kind, the tokens drawn for it, an end its duration after its start |
| CorpusFacts.ModelsDistinct | benchmarks/curation/generate.py:41-50 | the price table names no model twice |
| Relations.SumsAgree | benchmarks/curation/flow_bench.php:147-149 | an SQL sum coalesced to zero is the sum that counts nulls as zero, all-null groups included |
| Relations.CountsAll | benchmarks/curation/flow_bench.php:114 | counting a column counts the rows exactly when none is null in it |
| Relations.SumsAddUp | benchmarks/curation/polars_bench.py:40-43 | sums and counts of two parts of a table add up to those of the whole |
| Relations.MaxIsLargest | benchmarks/curation/polars_bench.py:57 | the maximum is a number of the column that none exceeds, and null where there is none |
| Relations.MeanIsShare | benchmarks/curation/polars_bench.py:43 | the mean times how many numbers there are is their sum |
| Queries.Q1Answers | benchmarks/curation/polars_bench.py:28-31 | q1 counts the failed spans slower than a second |
| Queries.Q1Projected | benchmarks/curation/profile_flow.php:157-158 | selecting the two columns straight after the read keeps the count of q1 |
| Queries.Q2Answers | benchmarks/curation/polars_bench.py:34-47 | a row for every model that was called, with its calls, its tokens in, its tokens out and their mean duration |
| Queries.FlowQ2AgreesIff | benchmarks/curation/flow_bench.php:108-127 | q2 through Flow is q2 through Polars if and only if no model call lacks a span id and every model counted some tokens |
| Queries.AceroQ2AgreesIff | benchmarks/curation/arrow_exchange.py:48-86 | q2 through Acero is q2 through Polars if and only if no model call lacks its model and every model counted some tokens |
| Queries.Q2IsOneQuery | benchmarks/curation/polars_bench.py:34-47 | on a generated corpus the three are one query |
| Queries.Q2Pushdown | benchmarks/curation/arrow_exchange.py:95-104 | unused columns, and rows the query filters out, may be dropped before it |
| Queries.AceroLoadsAgree | benchmarks/curation/arrow_exchange.py:95-104 | loading everything, the needed columns, or the needed columns of the calls gives one answer |
| Queries.Q3Answers | benchmarks/curation/polars_bench.py:50-59 | a row for every run, with its spans, its tokens in, its tokens out and its longest duration |
| Queries.Q3AgreesIff | benchmarks/curation/flow_bench.php:130-151 | q3 agrees if and only if no span id is null |
| Queries.UncoalescedDiffers | benchmarks/curation/flow_bench.php:147-149 | without the coalescing a run with no model call sums to null on one side and zero on the other |
| Curation.PriceLookups | benchmarks/curation/profile_flow.php:227-245 | the loop builds the three lookups of the table |
| Curation.JoinedBills | benchmarks/curation/profile_flow.php:173-209 | the join lists the calls that succeeded, each billed at each price of its model: tokens in at the one rate and out at the other, with the provider of the price and the identifiers of the call; and nothing else |
| Curation.LookUpBills | benchmarks/curation/profile_flow.php:247-262 | the lookups bill a call at the first price of its model, and leave it without provider and cost where there is none |
| Curation.DaysAgreeIff | benchmarks/curation/profile_flow.php:258-269 | the text before the T and the first ten characters are one day if and only if the date takes ten characters |
| Curation.OnePriceAgrees | benchmarks/curation/profile_flow.php:247-262 | a call whose model has one price comes out of both forms as the same row |
| Curation.RewriteAgreesIff | benchmarks/curation/profile_flow.php:173-262 | the lookups give the join's rows, as a multiset, if and only if every call that passes the filter has its model in the table exactly once |
| Curation.RewriteHoldsOnCorpus | benchmarks/curation/profile_flow.php:173-262 | so they do on every generated corpus |
| Curation.NativeAgreesIff | benchmarks/curation/profile_flow.php:264-292 | the native form gives the rows of the lookups, in order, if and only if every call that passes the filter has a start, both token counts and a price; otherwise it raises |
| Curation.NativeHoldsOnCorpus | benchmarks/curation/profile_flow.php:264-292 | on a generated corpus it raises on no call and gives the rows of the join |
| Curation.DaysCurateAlike | benchmarks/curation/polars_bench.py:62-80 | taking the day either way curates the same rows |
| Doors.EveryRunIsSafe | scripts/e2e-agent-outbox.py:183-218 | in every interleaving an admitted socket that is not hung up is in `_live` or in the batch `shut` is hanging up, the lock has one holder, and nothing is admitted while shut |
| Doors.ShutDoorHolds | scripts/e2e-agent-outbox.py:160-218 | from the return of `shut` to the next `open` every admitted socket is hung up, none is admitted and no pump forwards another chunk, whatever the threads do |
| Doors.ShutFinishes | scripts/e2e-agent-outbox.py:183-190 | left alone `shut` ends with the door shut and everything live hung up |
| Doors.EveryRunPumpsBothWays | scripts/e2e-agent-outbox.py:216-218 | in every interleaving the pumps come in pairs, the second from upstream back to the client, and every socket admitted is read by one or about to be |
| Doors.EveryRunHangsUpBoth | scripts/e2e-agent-outbox.py:160-171 | in every interleaving a pump that has ended has hung up both its sockets |
| Doors.PumpEnds | scripts/e2e-agent-outbox.py:160-171 | a pump whose source ends hangs up both its sockets in three steps of its own |
| Doors.Door.Shut | scripts/e2e-agent-outbox.py:183-190 | the method is that run of the machine: shut, nothing live, the old live sockets hung up |
| Doors.Door.Open | scripts/e2e-agent-outbox.py:192-194 | the method is the machine's two opening steps |
| Doors.Door.Admit | scripts/e2e-agent-outbox.py:206-216 | under the lock a client is admitted with its upstream exactly when the door is open and the upstream answers, and hung up otherwise |
| CommentBlocks.MarkerOf | scripts/lint-comments.py:54-59 | the first listed marker the stripped line starts with, or none when it starts with none |
| CommentBlocks.StripSkips | scripts/lint-comments.py:55 | stripping takes the white space off both ends, however much there is, and nothing else |
| CommentBlocks.IndentedComment | scripts/lint-comments.py:54-59 | at any indentation a line is a comment exactly when the text after the blanks starts with a listed marker, and the first such is its marker |
| CommentBlocks.FenceAfterMarker | scripts/lint-comments.py:79-80 | a comment is a fence exactly when what follows its marker, blanks aside, starts with three backticks |
| CommentBlocks.Blocks | scripts/lint-comments.py:62-85 | the one pass yields exactly the maximal runs of comment lines, with their first marker, first line and prose lines |
| CommentBlocks.RunsListed | scripts/lint-comments.py:62-68 | every maximal run is listed once, in order, and nothing else is |
| CommentBlocks.BlockTells | scripts/lint-comments.py:70-78 | a block has its first line's marker, and the line before it is code or not there |
| CommentBlocks.OpenFenceHides | scripts/lint-comments.py:79-83 | without a fence every line of a block is prose; one that is never closed hides all that follows |
| CommentBlocks.FencesHide | scripts/lint-comments.py:79-83 | two fences hide themselves and what is between them |

## Left out

- The rest of a trace's payload: token counts, source, session and conversation fields; nothing reads them in the properties above.
- Prompts: a call's prompt is any value or none; the registry it comes from is not part of this model.
- Executions.Execution: topologies in which two nodes share an id are not covered; the script's own have distinct ids, and with a shared one a retried execution may fail two steps.
- The loop in `workflows` that starts executions, and the weights of every draw: a draw is any value in its range, so that a tool is used, an optional node taken or a reply streamed is possible and not promised.
- Install.ValuesFollow: an override arrives as off or as a URL; stripping it, its trailing slash and the words that mean off are not modelled.
- Curation.NativeAgreesIff: PHP's TypeError is a result of its own; what is written before it is raised is not modelled.
- Clock values are reals in seconds; time zones and the rendering of instants are not modelled.
- zlib and CRC-32: an inverse pair and any four bytes. Floating-point rounding: coordinates, features, weights and costs are reals.
- Trainer.WeightsBounded: the sigmoid is any function into (0, 1); its exponential is not modelled.
- Labels.Prepare: the server between upload and download is taken to hand back the bytes and the annotations it was given.
- HTTP calls, subprocesses, kubectl, JSON and YAML text, printed lines, signals and polling deadlines.
- The table of detection targets is a parameter: what is proved holds for any table.
- The evidence and the sentences in a derived domain and in a finding, other than the reason nothing was found.
- Policies.AcceptsAfter: peers are names and a path is a peer and a port; IP blocks, namespace selectors and egress are not modelled.
- Reinstall.SecondRunAgreesIff: of what the chart installs, only its labels, its Services' selectors and its attached rules matter, and they are taken to be as the chart's templates have them; the optional worker peer is not modelled.
- Order.FirstIsLeast: sorting is a function here; the interpreter's algorithm is not modelled.
- Corpus.TraceIdInjective: the scrambling is on unbounded integers; it would wrap in 64 bits only beyond three billion runs, and the run behind it would still read back.
- Engine internals, the rounding of an average to six places, and the order in which engines return rows: a grouped result is a map, a curated one a multiset.
- Batch sizes and file formats of the queries: a query is a function of its rows.
- The loss and the overlap that `evaluate` reports.
- Curation.DaysAgreeIff: how an instant is rendered is a parameter of the generator; that it takes ten characters for the date is the stated condition.
- Doors.ShutDoorHolds: a step of the machine is one call on a socket or one access under the lock; what the kernel does inside a call is not modelled.
- CommentBlocks.Blocks: the list of files, docstrings and the line limit are not modelled.
- The Rust server, the SDKs, the ledger, the outbox and the gateway: their code is not part of this model.
