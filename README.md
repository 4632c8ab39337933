# algo-astra core, modelled in Dafny

algo-astra is a space-themed teaching app for data structures and
algorithms: a React single-page front end with one tab per lesson and a
serverless GraphQL API. This project models the parts of it that compute
something and proves what they promise:

- **Sorting visualiser** (`Sorting`, sorting.dfy). Bubble sort and Lomuto
  quick sort run in place on a copy of the displayed array (a Dafny
  `array<int>`). Every swap is published to the `values` field, together with
  the highlighted pair, the indices marked sorted and bubble sort's progress.
  Start, Reset, Randomize and the algorithm buttons form a small run-control
  state machine guarded by `sorting`.
- **Quiz** (`QuizData`, quiz_data.dfy; `QuizTab`, quiz.dfy). The quiz bank
  has six five-question quizzes. The quiz tab is a class whose fields are the
  component's state. Answering, moving on, finishing, retaking and leaving
  are its methods. A class invariant ties the score to the answer log. The
  result the finished quiz sends to the API is computed as the code computes
  it, and beside it as evidently intended (see Findings).
- **Stacks and queues** (`StacksQueuesTab`, stacks_queues.dfy). Push/pop and
  enqueue/dequeue of trimmed, non-blank box texts, plus the Top/Front/Rear
  labels.
- **Arrays and linked list** (`ArraysTab`, arrays_tab.dfy). The comma-split,
  trim and filter parser, and a node list that is appended to and filtered by
  id.
- **API** (`Api`, store.dfy). The in-memory, append-only list of saved quiz
  results with its id counter, and the constant lesson table.
- **Trees lesson** (`TreesGraphsTab`, trees.dfy). The section-toggle map,
  the sample binary tree, and what the lesson text claims about it: root,
  leaves, height, and the four traversal orders.
- Shared pieces: `Options` (an `Option` type) and `Builtins`, which holds the
  JavaScript string operations the code relies on (`trim`, `split`, `join`,
  `filter`).

Each React event handler is one atomic method. It reads the state before
the event and writes the state after it; React's batching of `setState`
calls is not modelled. Values the code draws from outside are parameters:
`Math.random()`, `Date.now()`, and the timestamp string of
`new Date().toISOString()`. The resolvers of the API live in
`api/graphql.js`, which the `Api` module models.

## Model

| member | source | states |
|---|---|---|
| Sorting.SortingTab.constructor | src/components/SortingTab.jsx:4-9 | The tab starts with bubble sort selected and the default array [64,34,25,12,22,11,90], not sorting, no highlights, no sorted marks and progress 0. |
| Sorting.SortingTab.SelectAlgorithm | src/components/SortingTab.jsx:221 | An algorithm button changes the selection only while no run is active. |
| Sorting.SortingTab.BubbleSort | src/components/SortingTab.jsx:96-118 | Leaves the values sorted and a permutation of the old ones. Appends n-1, n-2, ..., 1 and then 0 to the sorted marks. Highlights exactly the pairs BubblePairs(n). For n >= 2 it ends highlighting [0,1] with progress exactly 100. |
| Sorting.SortingTab.BubblePasses | src/components/SortingTab.jsx:102-116 | After the outer loop the values are sorted and permuted, and index n-1-i has been marked after each pass i. The step counter equals the number of pairs compared. |
| Sorting.SortingTab.BubblePass | src/components/SortingTab.jsx:103-114 | One outer pass moves the largest value of arr[0..n-1-i] to position n-1-i and keeps the already sorted suffix. It compares each neighbouring pair (j, j+1) in order and counts one step per pair. |
| Sorting.SortingTab.CompareStep | src/components/SortingTab.jsx:104-113 | Highlights [j, j+1] and swaps them exactly when arr[j] > arr[j+1]. Adds one step and sets progress to step/total x 100. |
| Sorting.SortingTab.Partition | src/components/SortingTab.jsx:128-149 | Returns p with low <= p <= high. The pivot arr[high] ends at p, with smaller values before it and the rest after it. Nothing outside [low, high] moves, the array is a permutation of the old one, and p is appended to the sorted marks. |
| Sorting.SortingTab.PartitionScan | src/components/SortingTab.jsx:129-142 | The scan loop keeps values below the pivot at low..i and the others at i+1..j-1. Nothing outside the range moves, and the last highlight is [high-1, high]. |
| Sorting.SortingTab.ScanStep | src/components/SortingTab.jsx:133-140 | Highlights [j, high]. Swaps arr[j] to i+1 and extends the front part exactly when arr[j] < pivot. |
| Sorting.SortingTab.QuickSortHelper | src/components/SortingTab.jsx:120-126 | Terminates because each recursive range is strictly smaller. Leaves arr[low..high] sorted and a permutation of what it was, with nothing outside it changed. Only indices in [low, high] are added to the sorted marks. |
| Sorting.SortingTab.QuickSort | src/components/SortingTab.jsx:151-156 | Leaves the values sorted and a permutation of the old ones, with the sorted marks exactly 0..n-1. |
| Sorting.SortingTab.StartSort | src/components/SortingTab.jsx:158-173 | While a run is active nothing changes. Otherwise the run ends not sorting, with no highlights and progress 100. Bubble and quick sort leave the values sorted and permuted, with marks BubbleMarks(n) and 0..n-1 respectively. Merge and insertion leave the values unchanged and no marks. |
| Sorting.SortingTab.ResetArray | src/components/SortingTab.jsx:175-180 | Outside a run, restores [64,34,25,12,22,11,90] and clears highlights, marks and progress. During a run it changes nothing (the button is disabled, line 249). |
| Sorting.SortingTab.RandomizeArray | src/components/SortingTab.jsx:182-188 | Outside a run, installs seven values in 1..100, one per draw, and clears highlights, marks and progress. During a run it changes nothing (line 256). |
| Sorting.Swap | src/components/SortingTab.jsx:108 | Exchanges two elements and keeps the multiset of the array. |
| Sorting.RandomArray | src/components/SortingTab.jsx:183 | Seven values, the k-th being floor(draw_k x 100) + 1, each in 1..100. |
| Sorting.DrawToValue | src/components/SortingTab.jsx:183 | A draw in [0, 1) gives a value in 1..100. |
| Sorting.DrawToValueReachesEveryValue | src/components/SortingTab.jsx:183 | Every value in 1..100 comes out of some draw in [0, 1). |
| Sorting.BubbleMarksCoverEachIndexOnce | src/components/SortingTab.jsx:115-117 | For n >= 1 bubble sort's marks hold each index 0..n-1 exactly once. For n = 0 they are just [0]. |
| Sorting.BubbleComparisonsClosedForm | src/components/SortingTab.jsx:99 | Twice the number of comparisons bubble sort makes is n(n-1), so the step counter reaches totalSteps. |
| Sorting.BubblePairsShape | src/components/SortingTab.jsx:99-104 | Bubble sort highlights exactly n(n-1)/2 pairs. Each pair is (j, j+1) with j+1 < n. There is at least one exactly when n >= 2, and the last is (0, 1). |
| Sorting.CompleteProgress | src/components/SortingTab.jsx:112-113 | Once the step counter reaches the total, progress is exactly 100. |
| Sorting.PassEnd | src/components/SortingTab.jsx:102-115 | After pass i the last i+1 positions hold the largest values in final sorted order. |
| Sorting.PassesSort | src/components/SortingTab.jsx:102-116 | After all n-1 passes the whole array is sorted. |
| Sorting.BubbleStep | src/components/SortingTab.jsx:103-110 | One comparison moves the largest value seen so far in the pass one place to the right. |
| Sorting.PartitionStep | src/components/SortingTab.jsx:132-142 | One scan step keeps the partition invariant. |
| Sorting.PartitionEnd | src/components/SortingTab.jsx:144-148 | The closing swap puts the pivot at i+1, between the smaller values and the rest. |
| Sorting.QuickSortCombine | src/components/SortingTab.jsx:121-125 | A partition followed by sorting both sides leaves the whole range sorted and permuted. |
| Sorting.MarksCompose | src/components/SortingTab.jsx:121-125 | The pivot mark (appended at line 146) and the marks of the two recursive calls all lie within the range of the whole call. |
| QuizData.GetTopicQuizData | src/data/quizData.js:270-272 | A known key gives its quiz. Any other key gives the practice quiz. The result is a well-formed quiz of the bank. |
| QuizData.QuizEntry | src/data/quizData.js:1-268 | A quiz exists exactly for the six keys. Its topic field equals its key. It has five questions, each with id k+1, four options and a right answer in [0, 4). |
| QuizData.QuestionAt | src/data/quizData.js:5-56 | Each question of a quiz has id k+1, four options and a right answer in [0, 4). |
| QuizData.TopicField | src/data/quizData.js:2-4 | Each quiz's topic field equals its key (lines 4, 60, 101, 142, 188 and 229). |
| QuizData.QuestionId | src/data/quizData.js:5-56 | Question ids run 1..5 in order within each quiz. |
| QuizData.AnswerKey | src/data/quizData.js:1-268 | Each quiz's answer key has five entries, each in [0, 4). |
| QuizData.CorrectAnswer | src/data/quizData.js:5-56 | The right answer to question k of a quiz is entry k of its answer key, and lies in [0, 4). |
| QuizData.EntryQuestion | src/data/quizData.js:5-56 | An unfolding of QuizEntry, not a property of the bank: question k of the entry is the record QuestionAt(key, k), carrying CorrectAnswer(key, k) and QuestionText(key, k). |
| QuizTab.TopicIdsAreBankKeys | src/components/QuizTab.jsx:18-25 | The topic buttons offer exactly the six quizzes of the bank. |
| QuizTab.CountCorrect | src/components/QuizTab.jsx:50-55 | The number of right answers in the log is at most its length, and equals it exactly when every answer is right. |
| QuizTab.AnswerFor | src/components/QuizTab.jsx:43-55 | The record kept for an answer names the question's text, the choice and the right answer. It is marked right exactly when the choice is the right answer. |
| QuizTab.SavedPayload | src/components/QuizTab.jsx:68-78 | Compared with the intended result (IntendedPayload), the saved result as written has the same topic and question count. Its score equals the intended score exactly when the last answer is wrong, and is otherwise two points higher. Its perfect flag is the intended rule (10 points) applied to that inflated score. |
| QuizTab.AnswerKeepsInQuiz | src/components/QuizTab.jsx:40-55 | Answering the current question keeps the quiz invariant (score = 2 x right answers, one record per answered question). |
| QuizTab.QuizTab.constructor | src/components/QuizTab.jsx:7-13 | The tab mounts on the topic picker with everything cleared. |
| QuizTab.QuizTab.StartQuiz | src/components/QuizTab.jsx:27-35 | Starts the chosen quiz at question 0 with no answer, score 0, empty log, not complete and no explanation. |
| QuizTab.QuizTab.HandleAnswerSelect | src/components/QuizTab.jsx:37-56 | Does nothing once an answer is chosen or with no topic. Otherwise it records the choice, shows the explanation, adds exactly 2 points for the right answer and 0 otherwise, and appends exactly one record with isCorrect = (choice == right answer). |
| QuizTab.QuizTab.HandleNext | src/components/QuizTab.jsx:58-86 | Before the last question it moves to the next one and clears the answer and explanation. At the last one it marks the quiz complete, keeps the question, and returns the saved result as written. The score and log are untouched in both cases. |
| QuizTab.QuizTab.ExitQuiz | src/components/QuizTab.jsx:88-96 | Back to the topic picker: no topic, question 0, no answer, score 0, empty log, not complete, no explanation. |
| QuizTab.ScoreBounds | src/components/QuizTab.jsx:46-48 | In any reachable state the score is even and between 0 and 10: one +2 per answered question, and an answer only while none is chosen (line 251). |
| QuizTab.SavedScoreCountsLastTwice | src/components/QuizTab.jsx:68-75 | On the last question the saved score is 2 x right answers plus 2 more when the last answer is right. |
| QuizTab.AllRightSavedAsImperfect | src/components/QuizTab.jsx:68-78 | Five right answers: the banner (lines 99-100) shows a perfect 10, but 12 is saved and marked not perfect. |
| QuizTab.FourRightSavedAsPerfect | src/components/QuizTab.jsx:68-78 | Four right answers, the last among them: the banner (lines 99-100) shows 8, but 10 is saved and marked perfect. |
| QuizTab.IntendedPayloadAgreesWithBanner | src/components/QuizTab.jsx:98-100 | The corrected result scores 2 per right answer. It is perfect exactly when all five answers are right, which is exactly when the banner shows a perfect score. |
| QuizTab.BannerByRightAnswers | src/components/QuizTab.jsx:98-139 | A finished quiz is perfect for five right answers (line 100). Line 139 shows 'Excellent work!' for four, 'Good effort!' for three and 'Keep practicing!' for fewer. |
| StacksQueuesTab.StacksQueuesTab.constructor | src/components/StacksQueuesTab.jsx:4-7 | Both structures and both boxes start empty. |
| StacksQueuesTab.StacksQueuesTab.SetStackInput | src/components/StacksQueuesTab.jsx:95 | Typing replaces the stack box's text. |
| StacksQueuesTab.StacksQueuesTab.SetQueueInput | src/components/StacksQueuesTab.jsx:148 | Typing replaces the queue box's text. |
| StacksQueuesTab.StacksQueuesTab.HandlePush | src/components/StacksQueuesTab.jsx:10-17 | Appends the trimmed text and clears the box exactly when the trimmed text is not empty. Otherwise the stack and box are unchanged. No stored item is blank or untrimmed. |
| StacksQueuesTab.StacksQueuesTab.HandlePop | src/components/StacksQueuesTab.jsx:19-25 | Removes exactly the last item of a non-empty stack. An empty stack is left alone. |
| StacksQueuesTab.StacksQueuesTab.HandleEnqueue | src/components/StacksQueuesTab.jsx:27-34 | Appends the trimmed text at the rear and clears the box exactly when the trimmed text is not empty. Otherwise nothing changes. |
| StacksQueuesTab.StacksQueuesTab.HandleDequeue | src/components/StacksQueuesTab.jsx:36-42 | Removes exactly the front item of a non-empty queue. An empty queue is left alone. |
| StacksQueuesTab.PushThenPop | src/components/StacksQueuesTab.jsx:10-25 | Pushing a non-blank text and popping gives the stack back (last in, first out). In between, the pushed text is shown on top (line 135). |
| StacksQueuesTab.TopLabelShowsTop | src/components/StacksQueuesTab.jsx:135 | For stored items the Top label is "None" for an empty stack and otherwise the top item. |
| StacksQueuesTab.QueueLabelsShowEnds | src/components/StacksQueuesTab.jsx:191 | For stored items Front and Rear are both "None" for an empty queue, and otherwise the first and last items. |
| StacksQueuesTab.QueueIsFifo | src/components/StacksQueuesTab.jsx:27-42 | For any run of clicks, the items that leave, followed by those left over, are the starting queue followed by the admitted texts in click order (first in, first out). |
| ArraysTab.ParseList | src/components/ArraysTab.jsx:10 | Every element is non-empty, trimmed and free of commas, and is the trimmed form of one of the comma-separated fields. |
| ArraysTab.ParseListConcat | src/components/ArraysTab.jsx:10 | The text before a comma and the text after it parse separately, and their results follow each other in order. |
| ArraysTab.ParseListOfField | src/components/ArraysTab.jsx:10 | A comma-free text gives its trimmed form, or nothing when that is blank. |
| ArraysTab.ParseListOfJoin | src/components/ArraysTab.jsx:10 | Joining non-empty, trimmed, comma-free elements with ',' and parsing gives them back, for every such list including the empty one ("" parses to no elements). |
| ArraysTab.TrimAll | src/components/ArraysTab.jsx:10 | The map step trims every field and keeps the order. |
| ArraysTab.RemoveById | src/components/ArraysTab.jsx:22 | No kept node carries the id. Every other node is kept as often as before. An id that no node carries leaves the list unchanged. |
| ArraysTab.RemoveByIdAppend | src/components/ArraysTab.jsx:22 | Removal works on each part of the list separately, so the surviving nodes keep their order. |
| ArraysTab.AddThenRemove | src/components/ArraysTab.jsx:14-23 | Adding a node with a fresh id and removing that id gives the list back. |
| ArraysTab.ArraysTab.constructor | src/components/ArraysTab.jsx:4-7 | Both boxes, the cells and the list start empty. |
| ArraysTab.ArraysTab.SetArrayInput | src/components/ArraysTab.jsx:75 | Typing replaces the array box's text. |
| ArraysTab.ArraysTab.SetNewNodeValue | src/components/ArraysTab.jsx:116 | Typing replaces the node box's text. |
| ArraysTab.ArraysTab.HandleArrayVisualize | src/components/ArraysTab.jsx:9-12 | The cells become the parsed fields of the array box. |
| ArraysTab.ArraysTab.HandleAddNode | src/components/ArraysTab.jsx:14-19 | Appends a node with the trimmed text and the clock reading as id, and clears the box, exactly when the trimmed text is not empty. Otherwise nothing changes. |
| ArraysTab.ArraysTab.HandleRemoveNode | src/components/ArraysTab.jsx:21-23 | The list becomes RemoveById of the old list. |
| Builtins.Trim | src/components/ArraysTab.jsx:10 | The result is trimmed and is a slice of the input with only whitespace cut off around it. It is empty exactly when the input is all whitespace, and an already trimmed text is unchanged. |
| Builtins.Split | src/components/ArraysTab.jsx:10 | At least one field, none containing the separator, and joining them with it gives the text back. |
| Builtins.SplitOfJoin | src/components/ArraysTab.jsx:10 | Splitting a non-empty list of separator-free fields, joined with the separator, gives them back. The empty list is excluded because it joins to "", which splits to [""]. |
| Builtins.SplitAtSeparator | src/components/ArraysTab.jsx:10 | Splitting a + sep + b gives the fields of a followed by the fields of b. |
| Builtins.Filter | src/components/ArraysTab.jsx:10 | Keeps only elements that pass (also used at line 22). Each was in the input. A sequence whose every element passes is unchanged. |
| Builtins.FilterAppend | src/components/ArraysTab.jsx:10 | Filtering a concatenation filters each part, in order. |
| Api.DecimalString | api/graphql.js:123 | String(n) is a non-empty run of decimal digits with no leading zero, starting with '0' only for 0. |
| Api.ParseDecimalString | api/graphql.js:123 | Reading String(n) back as a number gives n. |
| Api.DecimalStringInjective | api/graphql.js:123 | Different counters give different id strings. |
| Api.ResultStore.constructor | api/graphql.js:5-6 | The store starts with no results and next id 1. |
| Api.ResultStore.SaveQuizResult | api/graphql.js:121-132 | Returns a result with id String(nextId), the input's topic, score, question count and perfect flag, and the given timestamp. Appends exactly that result, leaves earlier ones unchanged, and advances the counter by one. The k-th stored result carries id String(k+1). |
| Api.ResultStore.QuizResults | api/graphql.js:113-115 | Returns the stored list unchanged. Read as numbers its ids are 1, 2, 3, ... in storage order, so they are pairwise distinct. |
| Api.LessonId | api/graphql.js:8-74 | The lessons are numbered '1' to '5' in table order. |
| Api.LessonContent | api/graphql.js:117-119 | Looking up the table at lines 8-74, a lesson exists exactly for arrays, stacks, trees, sorting and bigO; any other topic, 'practice' included, gives null. A lesson is filed under its own topic, has four key points, and the k-th has id String(k+1). |
| TreesGraphsTab.ToggleSection | src/components/TreesGraphsTab.jsx:10-15 | Flips only the named flag (a missing flag becomes true) and leaves every other flag unchanged. |
| TreesGraphsTab.ToggleTwice | src/components/TreesGraphsTab.jsx:10-15 | Toggling a section twice restores the map. |
| TreesGraphsTab.ToggleKeepsSections | src/components/TreesGraphsTab.jsx:4-15 | Toggling one of the three sections (the calls at lines 134, 170 and 203) keeps exactly these three sections in the map. |
| TreesGraphsTab.ToggledFromInitial | src/components/TreesGraphsTab.jsx:4-15 | Starting from the three collapsed sections, any run of clicks on the section buttons keeps exactly those three sections. A section is open exactly when its button was clicked an odd number of times. |
| TreesGraphsTab.ToggledParity | src/components/TreesGraphsTab.jsx:10-15 | From any flags for the three sections, a run of clicks keeps the three sections. Each flag ends flipped exactly when its button was clicked an odd number of times. |
| TreesGraphsTab.SampleTreeProperties | src/components/TreesGraphsTab.jsx:121-124 | For the sample tree of lines 18-30: its root is Mission Control. Its leaves are Crew, Fuel, Navigation, Telemetry. Its height is 2 and it has 7 nodes. That no node has more than two children (line 121) is not part of the lemma: the `Tree` datatype has room for only a left and a right child. |
| TreesGraphsTab.SampleInOrder | src/components/TreesGraphsTab.jsx:215-216 | The in-order traversal of the sample tree (lines 18-30) is the sequence the lesson lists. |
| TreesGraphsTab.SamplePreOrder | src/components/TreesGraphsTab.jsx:219-220 | The pre-order traversal of the sample tree (lines 18-30) is the sequence the lesson lists. |
| TreesGraphsTab.SamplePostOrder | src/components/TreesGraphsTab.jsx:223-224 | The post-order traversal of the sample tree (lines 18-30) is the sequence the lesson lists. |
| TreesGraphsTab.SampleLevelOrder | src/components/TreesGraphsTab.jsx:227-228 | The breadth-first traversal of the sample tree (lines 18-30) is the sequence the lesson lists. |
| TreesGraphsTab.DepthFirstOfHeightTwo | src/components/TreesGraphsTab.jsx:215-224 | For any perfect tree of height two, the in-, pre- and post-order traversals are the three orders the lesson describes. |
| TreesGraphsTab.LevelOrderOfHeightTwo | src/components/TreesGraphsTab.jsx:227-228 | For any perfect tree of height two, breadth-first order is root, then both children, then the four leaves left to right. |
| TreesGraphsTab.DepthFirstOrdersAgree | src/components/TreesGraphsTab.jsx:215-224 | The three depth-first orders visit the same nodes, as often as each other. |
| TreesGraphsTab.InOrderVisitsEachNodeOnce | src/components/TreesGraphsTab.jsx:215-216 | In-order visits as many nodes as the tree has. |
| TreesGraphsTab.BfsVisitsAll | src/components/TreesGraphsTab.jsx:227-228 | Breadth-first traversal of a queue of trees visits every node of every tree exactly once. |
| TreesGraphsTab.LevelOrderAgrees | src/components/TreesGraphsTab.jsx:215-228 | Level order visits the same nodes as in-order. |
| TreesGraphsTab.Labels | src/components/TreesGraphsTab.jsx:19-28 | Each stored node text maps to its name in the lesson text, element by element. |

## Left out

- Rendering: all JSX, styling, hover effects and the TreeNode renderer (src/components/TreesGraphsTab.jsx:32-64). None of it computes state.
- Timing: the 300 ms `sleep` between sort steps and the `setTimeout` animation flag of the stacks-and-queues tab. Each handler and each sort run is one atomic transition.
- React's asynchronous, batched `setState` and the interleaving of events with a running sort. The model has no concurrency.
- Each sort run is one atomic method, so the states in between are not observable and "progress never decreases during a run" is not stated. Only the progress after each comparison (CompareStep) and at the end of the run (StartSort) are.
- Quick sort's floating progress estimate (`n * Math.log2(n)`, `100 / totalSteps.value`, `Math.min`, src/components/SortingTab.jsx:141, 153). It is floating-point only, so QuickSort leaves `progress` alone. StartSort sets it to 100 afterwards, as the code does.
- The quiz progress bar width and the sorting bar heights, which are display arithmetic.
- The code panels (`expandedCode` and the code strings of SortingTab.jsx), and the merge and insertion sort code shown as text. They are display-only.
- Apollo `useMutation`, `useQuery`, `refetch` and the try/catch around the save. HandleNext returns the result it would send instead of sending it.
- `buildSchema`, `createHandler`, the CORS headers and the HTTP handler of api/graphql.js, which are library wiring.
- server/index.js, server/schema/schema.js, src/graphql/queries.js and src/graphql/client.js are not part of this model. They are wiring, and the server imports a resolvers file that is not in the repository.
- src/components/BigOTab.jsx and src/App.jsx: static lesson content and tab routing.
- Non-deterministic sources are parameters: `Math.random()` (the seven draws of RandomizeArray), `Date.now()` (the id of HandleAddNode) and the ISO timestamp string of SaveQuizResult.
- Sorting.SortingTab.CompareStep: progress is an exact real, the code rounds in double precision. The two agree at 100 but not in between (one of three steps is exactly 100/3 here).
- Api.ResultStore.SaveQuizResult: the counter is unbounded, the code's Number loses precision past 2^53. Beyond that the ids would repeat, so the distinct ids of QuizResults and DecimalStringInjective hold only below that bound.
- ArraysTab.ArraysTab.HandleAddNode: two nodes added within the same millisecond would share an id, and a removal would then drop both. The model allows this, as the code does, but no lemma is about it.
- JavaScript property lookup on inherited keys: `quizData[key]` and `lessonData[topic]` with keys such as "constructor" find prototype members. Lookups are modelled on the tables' own keys only.
- Builtins.Trim: strings are sequences of Unicode characters, not JavaScript's UTF-16 code units. Its whitespace set is ECMAScript's WhiteSpace and LineTerminator characters, with the space separators listed explicitly instead of taken from a Unicode table.
- The quiz texts (question, option and explanation strings) are stored column-wise as functions of key and index, not as one literal table. QuestionAt and QuizEntry rebuild the table's records from them.
- StacksQueuesTab.TopLabelShowsTop: the code shows "None" for an empty structure. A stored item that is itself the text "None" shows the same label, so the lemma states what is shown rather than "None exactly when empty".
- The typing handlers (`onChange` of the text boxes) are modelled as plain setters.

## Findings

| source | as written | input that shows it | evidently intended | confidence | as-written member | corrected member |
|---|---|---|---|---|---|---|
| src/components/QuizTab.jsx:68-78 (against line 47) | The saved score and `isPerfectScore` add 2 for a right last answer, although handleAnswerSelect has already added those 2 points to `score`. | Answer all five questions right: the banner shows 10/10, but 12 and "not perfect" are saved. Answer four right, the last among them: the banner shows 8, but 10 and "perfect" are saved. | Save `score` as it stands, marked perfect exactly when it is 10. | not executed | QuizTab.SavedPayload, QuizTab.AllRightSavedAsImperfect, QuizTab.FourRightSavedAsPerfect | QuizTab.IntendedPayload, QuizTab.IntendedPayloadAgreesWithBanner |

QuizTab.QuizTab.HandleNext returns the payload as written, because the
model follows the code.
