# FaceBeat core, modelled in Dafny

FaceBeat is a browser rhythm game played with facial expressions. A face
classifier scores each webcam frame and the player has to show the emotion
asked for. This project models the four parts of the repository that hold
logic of their own:

- **Tutorial page** (`tutorial.dfy`, module `Tutorial`). A target expression
  is drawn at random from five. A 50 ms interval grades the first detected
  face's probability for that target. The Perfect bar is 0.95 for `neutral`
  and 0.8 otherwise. Good starts at 0.5 and anything lower is MISS. The first
  Perfect sets a one-way "finished" latch. The pure part is `Grade`, `Step`
  and `Run` over a `PageState`. The page itself is the class `TutorialPage`,
  whose `Tick` is proved to perform `Step`.
- **Rhythm game session** (`rhythm_game.dfy`, module `RhythmGame`). A
  `Ready`/`Playing` page whose start button clears the notes and arms a spawn
  interval. Each spawn tick appends one note with a random emotion from a
  fixed list of five. The audio's end clears the interval and returns to
  `Ready`. The lanes show the notes filtered by emotion, and they are proved
  to partition the notes.
- **Upload store** (`storage_service.dfy`, module `Storage`). Derives the
  extension from the last `.`, names the stored file `uuid + extension`, and
  maps the upload type to `/images/` or `/songs/`, rejecting any other type.
  `delete` strips one leading `/` and resolves the rest under
  `src/main/resources/static`. The filesystem is a map from path to bytes.
- **Score service** (`score_service.dfy`, module `ScoreService`).
  `saveScore` looks up the user, then the song, then inserts one score.
  `getRanking` numbers a fetched list 1..n.

`common.dfy` (module `Common`) holds `Option` and the random index
`floor(r * n)` that both frontend pages use.

Inputs from outside the code are parameters:
- the classifier's faces, as maps from expression key to probability;
- `Math.random()`, as a real in [0, 1);
- `Date.now()`, as an integer;
- whether `play()` and the model loading succeeded, as booleans;
- the UUID string;
- the list returned by the top-ten query.

Each interval firing is one method call.

In RhythmGame.jsx:35-40 a rejected `play()` is only logged: the page
enters `Playing` and clears its notes whether or not the audio started.
`StartGame` takes the outcome of `play()` as a parameter for that reason.

## Model

| member | source | states |
|---|---|---|
| `Common.RandomIndex` | frontend/src/pages/Tutorial.jsx:34-35 | `floor(random * n)` is always a valid index into a list of n entries, and is the floor of `r * n` |
| `Tutorial.PerfectThreshold` | frontend/src/pages/Tutorial.jsx:63 | the Perfect bar is 0.95 exactly when the target key is `neutral`, 0.8 for every other key, and always above the Good bar 0.5 |
| `Tutorial.Grade` | frontend/src/pages/Tutorial.jsx:60-82 | Perfect iff prob ≥ the Perfect bar; Good iff 0.5 ≤ prob < the bar; MISS iff prob < 0.5, so each boundary goes to the higher grade; an absent key grades MISS; a tick never leaves the grade empty |
| `Tutorial.GradeMonotone` | frontend/src/pages/Tutorial.jsx:65-82 | a higher probability never earns a lower grade |
| `Tutorial.Step` | frontend/src/pages/Tutorial.jsx:46-85 | a finished page, an unarmed interval, a video that is not ready, or no faces leave the state unchanged; otherwise the grade becomes the first face's grade and finished becomes true exactly on Perfect; the target never changes; finished ⇔ Perfect is preserved |
| `Tutorial.StepReadsFirstFaceOnly` | frontend/src/pages/Tutorial.jsx:60 | two detector results with the same first face give the same tick |
| `Tutorial.FinishedIsTerminal` | frontend/src/pages/Tutorial.jsx:49-58 | once finished, any sequence of later ticks leaves grade and latch unchanged |
| `Tutorial.FinishedNeverUnset` | frontend/src/pages/Tutorial.jsx:65-69 | once a run has finished, appending any ticks changes nothing, so finished never returns to false |
| `Tutorial.RunConsistent` | frontend/src/pages/Tutorial.jsx:65-82 | from any state where finished ⇔ Perfect (the initial state included), every run keeps finished ⇔ Perfect |
| `Tutorial.UnloadedRunIsIdle` | frontend/src/pages/Tutorial.jsx:46 | before the models load, no interval runs, so ticks change nothing |
| `Tutorial.TutorialPage.constructor` | frontend/src/pages/Tutorial.jsx:15-24 | the page starts with no target, an empty grade and finished = false |
| `Tutorial.TutorialPage.LoadModels` | frontend/src/pages/Tutorial.jsx:26-42 | a successful load sets the target to entry `floor(r * 5)` of the expression list and marks the models loaded; a failed load changes nothing |
| `Tutorial.TutorialPage.Tick` | frontend/src/pages/Tutorial.jsx:47-85 | one interval firing changes the page exactly as `Step` does and keeps finished ⇔ Perfect |
| `RhythmGame.Lane` | frontend/src/pages/RhythmGame.jsx:74 | a lane holds exactly the notes of its emotion, each as many times as it occurs among the notes, and never more notes than there are |
| `RhythmGame.LaneAppend` | frontend/src/pages/RhythmGame.jsx:74 | filtering keeps the notes' order: the lane of `a + b` is the lane of `a` followed by the lane of `b` |
| `RhythmGame.SpawnExtendsOneLane` | frontend/src/pages/RhythmGame.jsx:43-74 | a spawned note appears at the end of its own lane, and every other lane is unchanged |
| `RhythmGame.LanesPartitionNotes` | frontend/src/pages/RhythmGame.jsx:70-74 | when every note's emotion is in `EMOTIONS`, the lane sizes over `EMOTIONS` add up to the number of notes |
| `RhythmGame.NoteInExactlyOneLane` | frontend/src/pages/RhythmGame.jsx:70-74 | a note is shown in the lane of its own emotion and in no other |
| `RhythmGame.RhythmGamePage.constructor` | frontend/src/pages/RhythmGame.jsx:12-15 | the page starts `ready`, with no notes, current emotion `happy`, no spawn interval and no audio |
| `RhythmGame.RhythmGamePage.StartGame` | frontend/src/pages/RhythmGame.jsx:34-51 | callable only from `ready`; the page becomes `playing` with no notes and a running spawn interval, whether or not playback started |
| `RhythmGame.RhythmGamePage.SpawnTick` | frontend/src/pages/RhythmGame.jsx:43-46 | one note is appended at the end with emotion `EMOTIONS[floor(r * 5)]`, which is in `EMOTIONS`; earlier notes and the game state are unchanged |
| `RhythmGame.RhythmGamePage.AudioEnded` | frontend/src/pages/RhythmGame.jsx:48-51 | the spawn interval stops and the state returns to `ready`; the notes are untouched; the interval runs exactly while playing |
| `Storage.LastIndexOf` | backend/src/main/java/com/facebeat/service/StorageService.java:32 | -1 iff the character is absent, else a position holding it with no later occurrence |
| `Storage.Extension` | backend/src/main/java/com/facebeat/service/StorageService.java:29-33 | the extension is a suffix of the name; it is empty iff the name is null or has no dot; otherwise it starts with `.` and has no other dot |
| `Storage.ExtensionOfSuffix` | backend/src/main/java/com/facebeat/service/StorageService.java:30-33 | any dotted suffix with no further dot is the extension, so the extension starts at the last dot |
| `Storage.StoredFilename` | backend/src/main/java/com/facebeat/service/StorageService.java:34 | the stored name is the UUID followed by the extension |
| `Storage.StoredFilenameKeepsExtension` | backend/src/main/java/com/facebeat/service/StorageService.java:30-34 | the stored name has the same extension as the upload, because a UUID string has no dot |
| `Storage.SubPath` | backend/src/main/java/com/facebeat/service/StorageService.java:39-47 | type `image` gives `/images/`, `song` gives `/songs/`, and any other type is rejected |
| `Storage.Resolve` | backend/src/main/java/com/facebeat/service/StorageService.java:54 | resolving an absolute path gives that path, an empty path gives the base, anything else is joined with `/` |
| `Storage.StoreOutcome` | backend/src/main/java/com/facebeat/service/StorageService.java:24-57 | null is returned iff the file is null or empty, even for an invalid type; an invalid type is rejected iff the file is non-empty; a path is returned iff the file is non-empty and the type is `image` or `song`, and it is the type's sub-path + the stored name |
| `Storage.PublicPathShape` | backend/src/main/java/com/facebeat/service/StorageService.java:39-57 | every returned path is `/images/` + uuid + extension for `image` or `/songs/` + uuid + extension for `song` |
| `Storage.PublicPathKeepsExtension` | backend/src/main/java/com/facebeat/service/StorageService.java:30-57 | a returned public path has the same extension as the uploaded file's name |
| `Storage.CleanPath` | backend/src/main/java/com/facebeat/service/StorageService.java:69 | exactly one leading `/` is removed; other paths are unchanged |
| `Storage.DeleteTarget` | backend/src/main/java/com/facebeat/service/StorageService.java:63-71 | a null or empty path targets nothing; any other path targets the cleaned path resolved under `src/main/resources/static` |
| `Storage.DeleteFindsStoredFileIff` | backend/src/main/java/com/facebeat/service/StorageService.java:54-70 | deleting a returned public path reaches the file `store` wrote iff the storage location is `src/main/resources/static` |
| `Storage.StorageService.constructor` | backend/src/main/java/com/facebeat/service/StorageService.java:18-22 | the upload directories are `location/images` and `location/songs` |
| `Storage.StorageService.UploadDirectory` | backend/src/main/java/com/facebeat/service/StorageService.java:39-44 | `image` uploads go to the image directory, `song` uploads to the song directory |
| `Storage.StorageService.Store` | backend/src/main/java/com/facebeat/service/StorageService.java:24-61 | returns `StoreOutcome`; only a returned path writes a file, the content under the upload directory resolved with the stored name, and no other file changes |
| `Storage.StorageService.Delete` | backend/src/main/java/com/facebeat/service/StorageService.java:63-76 | a null or empty path is a no-op; otherwise exactly the target file is removed; no IOException escapes |
| `ScoreService.SaveCheck` | backend/src/main/java/com/facebeat/service/ScoreService.java:28-35 | an unknown user fails first; a known user with an unknown song fails second; saving happens iff both are known |
| `ScoreService.ScoreStore.SaveScore` | backend/src/main/java/com/facebeat/service/ScoreService.java:28-48 | on either failure the score store is unchanged; on success exactly one score is appended, linked to the found user and song, carrying the request's value; users and songs never change |
| `ScoreService.Entry` | backend/src/main/java/com/facebeat/dto/response/RankingResponse.java:15-22 | an entry carries the given rank, the score's user's userId and username, and the score value |
| `ScoreService.Numbered` | backend/src/main/java/com/facebeat/service/ScoreService.java:58-61 | one entry per fetched score, in order, entry i numbered first + i and built from the i-th score |
| `ScoreService.RanksConsecutive` | backend/src/main/java/com/facebeat/service/ScoreService.java:58-60 | ranks are 1..n, consecutive and strictly increasing |
| `ScoreService.TopTenRanking` | backend/src/main/java/com/facebeat/service/ScoreService.java:54-61 | a fetch of at most ten scores in descending order gives at most ten entries with non-increasing scores |
| `ScoreService.ScoreStore.GetRanking` | backend/src/main/java/com/facebeat/service/ScoreService.java:51-64 | the loop returns one entry per fetched score, entry i with rank i + 1 built from the i-th score; the method has no write frame, so the store is unchanged |

## Left out

- Webcam capture, face-api model loading and detection are outside the model. The detector's result is a tick parameter and the load's success is a `LoadModels` parameter.
- The `setInterval`/`setTimeout` timing is not modelled, and neither is the overlap of an awaited detection with later firings. In `Tutorial.Step` the two `isFinishedRef` checks around the detection collapse into one, because a tick is atomic here; `TutorialPage.Tick` keeps both, as the source writes them, and is proved equal to `Step`.
- The 5-second redirect to `/Home` after Perfect is navigation and is not modelled.
- All rendering is left out: labels, emoji, `EMOJI_MAP`, lane highlighting, overlays. Only the lane filter is modelled. `currentEmotion` is never updated by the code, so it stays `happy`.
- Audio playback is left out. `play()`'s success is a parameter, `onended` can only fire while audio plays, and the song list always has its one entry.
- Note ids from `Date.now()` are a parameter. They are not claimed unique.
- Probabilities are reals, so float rounding is not modelled.
- Filesystem effects in `StorageService` are map updates. `createDirectories`, `IOException` wrapping in `store`, and `delete`'s printed error are left out. Path normalisation (repeated separators, `..`) is also left out.
- `UUID.randomUUID()` is a parameter. Its string is assumed to be 36 lower-case hex digits and dashes.
- The `type` argument of `store` is a non-null string. A null type would take the same rejecting branch as any unknown type.
- `findTop10BySongIdOrderByScoreValueDesc` is not declared in the repository; its result is the parameter of `GetRanking`. `TopTenRanking` states what follows when that result has at most ten scores in descending order. The song id argument of `getRanking` only feeds that query, so it is absent.
- The `combo` and `grade` builder calls in `saveScore` are left out, because the `Score` entity has no such fields. The same goes for null request fields, generated ids and transaction rollback.
- Users are looked up by the request's string user id, as `saveScore` passes it. The controller-level methods and the repository interfaces are left out.
- Storage.StorageService.Store: a file name that the platform's path parser rejects (one holding a NUL character, say) makes `resolve` at StorageService.java:54 throw an `InvalidPathException`, which is unchecked and not caught at :58. This is not modelled: the model writes the file and returns its public path.
- Storage.StorageService.Delete: a path that the platform's path parser rejects makes `resolve` at StorageService.java:70 throw an `InvalidPathException`, which the `IOException` handler at :72 does not catch. This is not modelled: the model removes the key and returns normally.
- Storage.DeleteFindsStoredFileIff: paths are compared as strings, so the lemma holds for that representation only. In Java, a storage location that names the static root another way also reaches the stored file, for example an absolute path or `./src/main/resources/static`.
- The `combo` and `grade` fields of `RankingResponse` (RankingResponse.java:20-21) are dropped. They read `getCombo()` and `getGrade()`, which the `Score` entity does not have.
