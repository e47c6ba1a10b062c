# Lesson progress scoring and section resume, modelled in Dafny

This project models two pieces of the front-end glue that the computer-vision
lessons run inside an LTI (Learning Tools Interoperability) host:

- **The progress scorer** (`progress/index.js`, module `Progress` in
  `progress.dfy`). The host calls it with a user's log history, an optional
  scope identifier and the loaded `structure.json` manifest. It first sets the
  pass denominator to 1. Then it records exactly one scored item: full credit
  (`completion`, 1 of 1) when there is no manifest or nothing to score, and
  otherwise `sections`, seen out of total. "Seen" means a section
  `<file>:<sectionId>` has a non-rejected `show` log entry.
- **The section observer** (`init.js`, module `Observer` in `observer.dfy`).
  When the seen-set arrives, it resumes every section named by an identifier
  of the exact form `index:section<digits>`, and it schedules a scroll to the
  last one. It then logs `index:<id>` for every visible `<section>` with an id,
  both at start and whenever a mutation leaves a section visible.

`common.dfy` holds the `Option` type both modules use.

Modelling choices:

- The accumulator (`ProgressResult`) belongs to the host. It is a class that
  records the calls made on it (`setToPass`, `add`) in order. So "set the pass
  value first, then add exactly one item" is an equation on its state.
- The manifest is a sequence of `(file, entry)` pairs, which keeps the key
  order. An entry is `Falsy` (a `null`-like value, which makes
  `structure[identifier]` false) or an object whose `sections` may be absent.
  Lookup takes the first matching key; a parsed JSON object has distinct keys.
- The document is a sequence of elements in tree order. Each element is an id
  (possibly empty), a tag name and whether it has the class `visible`.
  `getElementById` is the first element with that id. The `lastSec` reference
  is an index into the sequence.
- The seen-set handed to the observer is a sequence in the set's iteration
  order.
- The `/^index:(section\d+)$/` match is a hand-written matcher (`MatchResume`).
  It is proved equivalent to "`index:` followed by `section` and at least one
  ASCII digit, and nothing else".

The scorer's doc comment says that with no matching scope "all files are
averaged". The code instead pools the section counts of all files into one
seen/total pair. The model follows the code; `ExamplePooled` shows a case
where pooling and averaging differ (1 of 4, where the average of 1/1 and 0/3
would be 1/2).

The final logging pass of the observer also re-logs the sections that the
resume step has just made visible. The model keeps this behaviour, and
`ResumedSectionRelogged` states it.

## Model

| member | source | states |
|---|---|---|
| `Progress.SeenSet` | cv-ch06-fourier-transform-and-images/lesson-04-quantization-and-artifacts-jpeg-part-ii/lesson-4-2-exercise-crunching-the-numbers/progress/index.js:55-59 | an identifier is in the seen-set iff some log entry carries it with type `show` and is not rejected |
| `Progress.SeenSetGrows` | cv-ch06-fourier-transform-and-images/lesson-04-quantization-and-artifacts-jpeg-part-ii/lesson-4-2-exercise-crunching-the-numbers/progress/index.js:55-59 | appending log entries only adds identifiers to the seen-set |
| `Progress.Lookup` | cv-ch06-fourier-transform-and-images/lesson-04-quantization-and-artifacts-jpeg-part-ii/lesson-4-2-exercise-crunching-the-numbers/progress/index.js:64-64 | `structure[key]` is absent iff no manifest key equals `key`, and when present it is an entry stored under `key` |
| `Progress.FilesToScore` | cv-ch06-fourier-transform-and-images/lesson-04-quantization-and-artifacts-jpeg-part-ii/lesson-4-2-exercise-crunching-the-numbers/progress/index.js:64-66 | every file scored is a manifest key; a scope that is non-empty and names a truthy entry gives just that file, otherwise all keys in manifest order |
| `Progress.ScopedTotal` | cv-ch06-fourier-transform-and-images/lesson-04-quantization-and-artifacts-jpeg-part-ii/lesson-4-2-exercise-crunching-the-numbers/progress/index.js:64-72 | with a scope that applies, the total is the number of sections of that one file |
| `Progress.SeenIn` | cv-ch06-fourier-transform-and-images/lesson-04-quantization-and-artifacts-jpeg-part-ii/lesson-4-2-exercise-crunching-the-numbers/progress/index.js:73-76 | the seen count of a file's sections never exceeds the number of sections |
| `Progress.SeenSections` | cv-ch06-fourier-transform-and-images/lesson-04-quantization-and-artifacts-jpeg-part-ii/lesson-4-2-exercise-crunching-the-numbers/progress/index.js:71-77 | over the files scored, 0 <= seen sections <= total sections |
| `Progress.CountSections` | cv-ch06-fourier-transform-and-images/lesson-04-quantization-and-artifacts-jpeg-part-ii/lesson-4-2-exercise-crunching-the-numbers/progress/index.js:68-77 | the nested counting loops end with the pooled total and pooled seen counts (a missing `sections` list or falsy entry counts 0) |
| `Progress.SeenInAll` | cv-ch06-fourier-transform-and-images/lesson-04-quantization-and-artifacts-jpeg-part-ii/lesson-4-2-exercise-crunching-the-numbers/progress/index.js:73-76 | a file's seen count equals its section count iff every section's `file:sectionId` is in the seen-set |
| `Progress.SeenInNone` | cv-ch06-fourier-transform-and-images/lesson-04-quantization-and-artifacts-jpeg-part-ii/lesson-4-2-exercise-crunching-the-numbers/progress/index.js:73-76 | a file's seen count is 0 iff no section's `file:sectionId` is in the seen-set |
| `Progress.SeenInMonotone` | cv-ch06-fourier-transform-and-images/lesson-04-quantization-and-artifacts-jpeg-part-ii/lesson-4-2-exercise-crunching-the-numbers/progress/index.js:73-76 | a larger seen-set never gives a file a smaller seen count |
| `Progress.FullCoverage` | cv-ch06-fourier-transform-and-images/lesson-04-quantization-and-artifacts-jpeg-part-ii/lesson-4-2-exercise-crunching-the-numbers/progress/index.js:71-77 | seen sections equal total sections iff every section of every scored file is in the seen-set |
| `Progress.NoCoverage` | cv-ch06-fourier-transform-and-images/lesson-04-quantization-and-artifacts-jpeg-part-ii/lesson-4-2-exercise-crunching-the-numbers/progress/index.js:71-77 | seen sections are 0 iff no section of any scored file is in the seen-set |
| `Progress.SeenSectionsMonotone` | cv-ch06-fourier-transform-and-images/lesson-04-quantization-and-artifacts-jpeg-part-ii/lesson-4-2-exercise-crunching-the-numbers/progress/index.js:71-77 | a larger seen-set never lowers the pooled seen count |
| `Progress.TotalSectionsAppend` | cv-ch06-fourier-transform-and-images/lesson-04-quantization-and-artifacts-jpeg-part-ii/lesson-4-2-exercise-crunching-the-numbers/progress/index.js:71-77 | totals are pooled: the total over two file lists is the sum of their totals |
| `Progress.ScoredItem` | cv-ch06-fourier-transform-and-images/lesson-04-quantization-and-artifacts-jpeg-part-ii/lesson-4-2-exercise-crunching-the-numbers/progress/index.js:47-86 | with no manifest the item is full credit; otherwise it is full credit or a `sections` item with 0 <= earned <= max and max > 0 |
| `Progress.SectionsBucketIff` | cv-ch06-fourier-transform-and-images/lesson-04-quantization-and-artifacts-jpeg-part-ii/lesson-4-2-exercise-crunching-the-numbers/progress/index.js:79-86 | the `sections` bucket is used iff a manifest is loaded and the scope has sections, and then its maximum is the total |
| `Progress.FullCreditIff` | cv-ch06-fourier-transform-and-images/lesson-04-quantization-and-artifacts-jpeg-part-ii/lesson-4-2-exercise-crunching-the-numbers/progress/index.js:47-86 | the item earns its maximum iff there is no manifest or every section in scope has a scored `show` entry |
| `Progress.ZeroGradeIff` | cv-ch06-fourier-transform-and-images/lesson-04-quantization-and-artifacts-jpeg-part-ii/lesson-4-2-exercise-crunching-the-numbers/progress/index.js:71-86 | the item earns 0 iff a manifest is loaded, the scope has sections, and none of them has a scored `show` entry |
| `Progress.MoreLogsNeverLower` | cv-ch06-fourier-transform-and-images/lesson-04-quantization-and-artifacts-jpeg-part-ii/lesson-4-2-exercise-crunching-the-numbers/progress/index.js:55-86 | appending log entries keeps the bucket and the maximum and never lowers the earned points |
| `Progress.ExampleHalf` | cv-ch06-fourier-transform-and-images/lesson-04-quantization-and-artifacts-jpeg-part-ii/lesson-4-2-exercise-crunching-the-numbers/progress/index.js:55-86 | one of two sections shown, scope `index`: `sections`, 1 of 2 |
| `Progress.ExampleRejected` | cv-ch06-fourier-transform-and-images/lesson-04-quantization-and-artifacts-jpeg-part-ii/lesson-4-2-exercise-crunching-the-numbers/progress/index.js:57-57 | the same log entry marked rejected: `sections`, 0 of 2 |
| `Progress.ExamplePooled` | cv-ch06-fourier-transform-and-images/lesson-04-quantization-and-artifacts-jpeg-part-ii/lesson-4-2-exercise-crunching-the-numbers/progress/index.js:71-77 | no scope, files of 1 and 3 sections, one section of the first shown: `sections`, 1 of 4, pooled and not averaged |
| `Progress.ProgressResult.SetToPass` | cv-ch06-fourier-transform-and-images/lesson-04-quantization-and-artifacts-jpeg-part-ii/lesson-4-2-exercise-crunching-the-numbers/progress/index.js:30-31 | `setToPass(n)` appends one call setting the pass denominator to n |
| `Progress.ProgressResult.Add` | cv-ch06-fourier-transform-and-images/lesson-04-quantization-and-artifacts-jpeg-part-ii/lesson-4-2-exercise-crunching-the-numbers/progress/index.js:32-37 | `add(type, value, count)` appends one call recording that item |
| `Progress.Score` | cv-ch06-fourier-transform-and-images/lesson-04-quantization-and-artifacts-jpeg-part-ii/lesson-4-2-exercise-crunching-the-numbers/progress/index.js:43-87 | on every path the accumulator receives `setToPass(1)` first and then exactly one `add`, of `ScoredItem` of the inputs |
| `Observer.DigitsAt` | cv-ch09-simple-filters-kernels/lesson-02-living-on-the-edge-handling-image-borders/lesson-2-4-coding-building-filters-in-python/init.js:16-16 | the recursive digit matcher accepts a string iff every character is an ASCII decimal digit |
| `Observer.MatchSound` | cv-ch09-simple-filters-kernels/lesson-02-living-on-the-edge-handling-image-borders/lesson-2-4-coding-building-filters-in-python/init.js:16-16 | whatever the pattern captures is the part after `index:`, and it has the form `section<digits>` |
| `Observer.MatchComplete` | cv-ch09-simple-filters-kernels/lesson-02-living-on-the-edge-handling-image-borders/lesson-2-4-coding-building-filters-in-python/init.js:16-16 | every `index:section<digits>` identifier is matched and captures the id after `index:` |
| `Observer.MatchIff` | cv-ch09-simple-filters-kernels/lesson-02-living-on-the-edge-handling-image-borders/lesson-2-4-coding-building-filters-in-python/init.js:16-16 | the pattern captures `x` from `s` iff `s` is `index:` + `x` with `x` of the form `section<digits>` |
| `Observer.FindById` | cv-ch09-simple-filters-kernels/lesson-02-living-on-the-edge-handling-image-borders/lesson-2-4-coding-building-filters-in-python/init.js:18-18 | `getElementById` yields the first element in tree order with that id, or null iff none has it |
| `Observer.Target` | cv-ch09-simple-filters-kernels/lesson-02-living-on-the-edge-handling-image-borders/lesson-2-4-coding-building-filters-in-python/init.js:16-18 | the element a seen identifier resumes lies in the document |
| `Observer.Resumed` | cv-ch09-simple-filters-kernels/lesson-02-living-on-the-edge-handling-image-borders/lesson-2-4-coding-building-filters-in-python/init.js:14-21 | the resume loop keeps every element's id and tag, never removes `visible`, and `lastSec` names an element of the document |
| `Observer.ResumedAt` | cv-ch09-simple-filters-kernels/lesson-02-living-on-the-edge-handling-image-borders/lesson-2-4-coding-building-filters-in-python/init.js:17-19 | after resume an element gains `visible` iff some matching identifier names it; every other element is unchanged |
| `Observer.LastResumedNone` | cv-ch09-simple-filters-kernels/lesson-02-living-on-the-edge-handling-image-borders/lesson-2-4-coding-building-filters-in-python/init.js:14-21 | `lastSec` is null iff no identifier matched an existing element |
| `Observer.LastResumedSome` | cv-ch09-simple-filters-kernels/lesson-02-living-on-the-edge-handling-image-borders/lesson-2-4-coding-building-filters-in-python/init.js:14-21 | otherwise `lastSec` is the element of the last identifier that matched an existing element |
| `Observer.SkippedIdentifier` | cv-ch09-simple-filters-kernels/lesson-02-living-on-the-edge-handling-image-borders/lesson-2-4-coding-building-filters-in-python/init.js:16-20 | an identifier that does not match or names no element can be removed from anywhere in the seen order without changing the document or `lastSec` |
| `Observer.VisibleSectionLogsIff` | cv-ch09-simple-filters-kernels/lesson-02-living-on-the-edge-handling-image-borders/lesson-2-4-coding-building-filters-in-python/init.js:46-48 | the start-up pass logs exactly the calls `('show', 'index:' + id)` of visible sections with a non-empty id |
| `Observer.LoggedOnce` | cv-ch09-simple-filters-kernels/lesson-02-living-on-the-edge-handling-image-borders/lesson-2-4-coding-building-filters-in-python/init.js:46-48 | with distinct ids, the start-up pass logs each visible section exactly once |
| `Observer.ResumedSectionRelogged` | cv-ch09-simple-filters-kernels/lesson-02-living-on-the-edge-handling-image-borders/lesson-2-4-coding-building-filters-in-python/init.js:19-47 | a resumed `<section>` is logged again by the start-up pass, under the identifier it was resumed from |
| `Observer.MutationLogsIff` | cv-ch09-simple-filters-kernels/lesson-02-living-on-the-edge-handling-image-borders/lesson-2-4-coding-building-filters-in-python/init.js:30-37 | a batch of mutations logs `('show', 'index:' + id)` exactly for targets that are sections with a non-empty id and the class `visible` |
| `Observer.LoggedSectionResumes` | cv-ch09-simple-filters-kernels/lesson-02-living-on-the-edge-handling-image-borders/lesson-2-4-coding-building-filters-in-python/init.js:16-34 | round trip: the identifier logged for a section with id `section<digits>` resumes the first element with that id |
| `Observer.Page.Resume` | cv-ch09-simple-filters-kernels/lesson-02-living-on-the-edge-handling-image-borders/lesson-2-4-coding-building-filters-in-python/init.js:14-21 | the resume loop leaves the document and `lastSec` exactly as `Resumed` defines them from the old document and the seen order |
| `Observer.Page.LogVisibleSections` | cv-ch09-simple-filters-kernels/lesson-02-living-on-the-edge-handling-image-borders/lesson-2-4-coding-building-filters-in-python/init.js:46-48 | the start-up pass appends exactly the calls `VisibleSectionLogs` defines for the current document |
| `Observer.Page.OnSeen` | cv-ch09-simple-filters-kernels/lesson-02-living-on-the-edge-handling-image-borders/lesson-2-4-coding-building-filters-in-python/init.js:10-48 | the callback leaves the document as the resume loop defines it, schedules a scroll iff `lastSec` is non-null, and appends the start-up pass's log calls |
| `Observer.Page.OnMutations` | cv-ch09-simple-filters-kernels/lesson-02-living-on-the-edge-handling-image-borders/lesson-2-4-coding-building-filters-in-python/init.js:30-37 | the mutation handler appends exactly the calls its batch defines and changes nothing else |

## Left out

- `logger.js` (the tracker client) is not part of this model: it is HTTP plumbing. Its result is the `seen` sequence given to `Observer.Page.OnSeen`, and a log call is a recorded `LogCall`.
- `fileLoader`, `debug` and `contentId`: the loader's result is the `loaded` input (`None` for not found), the debug messages are side-effect-only logging, and `contentId` only appears in a debug message.
- The grade arithmetic inside the accumulator (division by the pass value, clamping, weights, `weight(type, w)`) is the host's and is not visible in these files. Only the calls made on the accumulator are modelled, with `add`'s default `count` of 1 written out.
- JavaScript value quirks: `sections` is taken to be an array of strings, log fields to be strings and a boolean, and keys like `"constructor"` that hit the object prototype are not modelled. `Object.keys` ordering of integer-like keys is not modelled either; the counts do not depend on the order.
- Counts are unbounded integers; JavaScript numbers lose precision only beyond 2^53 sections.
- Browser mechanics: the 250 ms `setTimeout` and smooth `scrollIntoView` are recorded as a scroll request for an element. `MutationObserver` dispatch and its attribute filter are modelled as calls of `OnMutations` with the mutated elements. DOM querying is an index search in tree order.
- The `window.LTITracker` global and `LTITracker.init`'s request are not modelled; the observer starts at the callback.
