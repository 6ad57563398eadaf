/**
 * The rhythm game page: a ready/playing session whose 2-second interval
 * appends one note with a random emotion, stopped when the song's audio ends,
 * and whose lanes show the notes filtered by emotion.
 *
 * Each interval firing is one `SpawnTick` call; `Math.random()` and
 * `Date.now()` are its parameters.
 */
module RhythmGame {
  import opened Common

  const Emotions: seq<string> := ["happy", "sad", "angry", "neutral", "surprised"]

  datatype GameState = Ready | Playing

  /** A note on screen: an id taken from the clock, and its lane's emotion. */
  datatype Note = Note(id: int, emotion: string)

  /** The notes one lane shows: those of its emotion, each as often as it occurs in the notes. */
  function Lane(notes: seq<Note>, emotion: string): (lane: seq<Note>)
    ensures |lane| <= |notes|
    ensures forall n :: n in lane <==> n in notes && n.emotion == emotion
    ensures forall n :: multiset(lane)[n] == if n.emotion == emotion then multiset(notes)[n] else 0
  {
    if notes == [] then []
    else
      var rest := Lane(notes[1..], emotion);
      assert notes == [notes[0]] + notes[1..];
      assert multiset(notes) == multiset{notes[0]} + multiset(notes[1..]);
      assert forall n :: n in notes <==> n == notes[0] || n in notes[1..];
      if notes[0].emotion == emotion then [notes[0]] + rest else rest
  }

  /** Filtering keeps order: the lane of a concatenation is the lanes of its parts, in order. */
  lemma {:induction false} LaneAppend(a: seq<Note>, b: seq<Note>, emotion: string)
    ensures Lane(a + b, emotion) == Lane(a, emotion) + Lane(b, emotion)
    decreases |a|
  {
    if a == [] {
      assert a + b == b;
    } else {
      var ab := a + b;
      assert ab[0] == a[0] && ab[1..] == a[1..] + b;
      LaneAppend(a[1..], b, emotion);
      var tail := Lane(a[1..], emotion) + Lane(b, emotion);
      if a[0].emotion == emotion {
        calc {
          Lane(ab, emotion);
          [a[0]] + Lane(ab[1..], emotion);
          [a[0]] + tail;
          ([a[0]] + Lane(a[1..], emotion)) + Lane(b, emotion);
        }
      } else {
        assert Lane(ab, emotion) == Lane(ab[1..], emotion);
      }
    }
  }

  /** A note appended at the end shows up at the end of its own lane and changes no other lane. */
  lemma SpawnExtendsOneLane(notes: seq<Note>, n: Note, emotion: string)
    ensures Lane(notes + [n], emotion) == if n.emotion == emotion then Lane(notes, emotion) + [n] else Lane(notes, emotion)
  {
    LaneAppend(notes, [n], emotion);
    assert [n][1..] == [];
  }

  /** How many entries of `emotions` are `e`. */
  function Occurrences(emotions: seq<string>, e: string): nat
  {
    if emotions == [] then 0
    else (if emotions[0] == e then 1 else 0) + Occurrences(emotions[1..], e)
  }

  /** The sum of the lane sizes, one lane per entry of `emotions`. */
  function LaneTotal(notes: seq<Note>, emotions: seq<string>): nat
  {
    if emotions == [] then 0
    else |Lane(notes, emotions[0])| + LaneTotal(notes, emotions[1..])
  }

  lemma {:induction false} LaneTotalCons(n: Note, rest: seq<Note>, emotions: seq<string>)
    ensures LaneTotal([n] + rest, emotions) == Occurrences(emotions, n.emotion) + LaneTotal(rest, emotions)
    decreases |emotions|
  {
    if emotions != [] {
      assert ([n] + rest)[1..] == rest;
      LaneTotalCons(n, rest, emotions[1..]);
    }
  }

  lemma {:induction false} NoNotesNoLaneTotal(emotions: seq<string>)
    ensures LaneTotal([], emotions) == 0
    decreases |emotions|
  {
    if emotions != [] {
      NoNotesNoLaneTotal(emotions[1..]);
    }
  }

  lemma EmotionOccursOnce(e: string)
    requires e in Emotions
    ensures Occurrences(Emotions, e) == 1
  {
    assert Emotions[1..][1..][1..][1..][1..] == [];
  }

  /** Every note whose emotion is one of `Emotions` lands in some lane. */
  predicate AllInEmotions(notes: seq<Note>)
  {
    forall i :: 0 <= i < |notes| ==> notes[i].emotion in Emotions
  }

  /** The lanes partition the notes: their sizes add up to the number of notes. */
  lemma {:induction false} LanesPartitionNotes(notes: seq<Note>)
    requires AllInEmotions(notes)
    ensures LaneTotal(notes, Emotions) == |notes|
    decreases |notes|
  {
    if notes != [] {
      var n, rest := notes[0], notes[1..];
      assert notes == [n] + rest;
      assert AllInEmotions(rest) by {
        forall i | 0 <= i < |rest| ensures rest[i].emotion in Emotions {
          assert rest[i] == notes[i + 1];
        }
      }
      LaneTotalCons(n, rest, Emotions);
      EmotionOccursOnce(n.emotion);
      LanesPartitionNotes(rest);
    } else {
      NoNotesNoLaneTotal(Emotions);
    }
  }

  /** A note is shown in the lane of its own emotion and in no other lane. */
  lemma NoteInExactlyOneLane(notes: seq<Note>, n: Note, k: nat)
    requires n in notes && k < |Emotions|
    ensures n in Lane(notes, Emotions[k]) <==> Emotions[k] == n.emotion
  {
  }

  class RhythmGamePage {
    var gameState: GameState
    var currentEmotion: string
    var notes: seq<Note>
    /** The spawn interval armed by the last start and not yet cleared. */
    var spawnTimerActive: bool
    /** The song's audio is playing, so its `onended` can still fire. */
    var audioPlaying: bool

    /** The spawn interval runs exactly while playing, and every note sits in some lane. */
    ghost predicate Valid()
      reads this
    {
      && (spawnTimerActive <==> gameState == Playing)
      && (audioPlaying ==> gameState == Playing)
      && AllInEmotions(notes)
    }

    /** Mount: ready, no notes, emotion `happy` until recognition is wired in. */
    constructor ()
      ensures Valid()
      ensures gameState == Ready && notes == [] && currentEmotion == "happy"
      ensures !spawnTimerActive && !audioPlaying
    {
      gameState, currentEmotion, notes := Ready, "happy", [];
      spawnTimerActive, audioPlaying := false, false;
    }

    /**
     * The start button, shown only in `Ready`. The state becomes `Playing`
     * and the notes are cleared whether or not playback starts: a rejected
     * `play()` is only logged.
     */
    method StartGame(playSucceeded: bool)
      requires Valid() && gameState == Ready
      modifies this
      ensures Valid()
      ensures gameState == Playing && notes == [] && spawnTimerActive
      ensures audioPlaying == playSucceeded
      ensures currentEmotion == old(currentEmotion)
    {
      gameState := Playing;
      notes := [];
      audioPlaying := playSucceeded;
      spawnTimerActive := true;
    }

    /** One firing of the spawn interval: one note at the end, earlier notes untouched. */
    method SpawnTick(r: real, now: int)
      requires Valid() && spawnTimerActive
      requires 0.0 <= r < 1.0
      modifies this
      ensures Valid()
      ensures |notes| == |old(notes)| + 1 && notes[..|old(notes)|] == old(notes)
      ensures notes[|old(notes)|] == Note(now, Emotions[RandomIndex(r, |Emotions|)])
      ensures notes[|old(notes)|].emotion in Emotions
      ensures gameState == old(gameState) && spawnTimerActive && audioPlaying == old(audioPlaying)
      ensures currentEmotion == old(currentEmotion)
    {
      var randomEmotion := Emotions[RandomIndex(r, |Emotions|)];
      notes := notes + [Note(now, randomEmotion)];
    }

    /** The audio's `onended`: clear the spawn interval and go back to `Ready`, keeping the notes. */
    method AudioEnded()
      requires Valid() && audioPlaying
      modifies this
      ensures Valid()
      ensures gameState == Ready && !spawnTimerActive && !audioPlaying
      ensures notes == old(notes) && currentEmotion == old(currentEmotion)
    {
      spawnTimerActive := false;
      audioPlaying := false;
      gameState := Ready;
    }
  }
}
