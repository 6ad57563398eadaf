/**
 * The score service of the backend: saving one score after looking up its
 * user and song, and numbering a fetched top list into a ranking.
 *
 * The repositories are maps (users by the request's user id, songs by id)
 * and a sequence of saved scores in insertion order.
 */
module ScoreService {

  datatype User = User(id: int, userId: string, username: string)

  datatype Song = Song(id: int, title: string)

  /** A saved score row: who, on which song, and the value. */
  datatype Score = Score(user: User, song: Song, scoreValue: int)

  datatype ScoreRequest = ScoreRequest(userId: string, songId: int, score: int)

  /** One line of the ranking: its place and the score's user and value. */
  datatype RankingResponse = RankingResponse(rank: int, userId: string, username: string, score: int)

  /** How `saveScore` ends: saved, or one of its two IllegalArgumentExceptions. */
  datatype SaveOutcome = Saved | UserNotFound | SongNotFound

  /** The lookups of `saveScore`, user first: an unknown user wins over an unknown song. */
  function SaveCheck(users: map<string, User>, songs: map<int, Song>, request: ScoreRequest): (outcome: SaveOutcome)
    ensures outcome == UserNotFound <==> request.userId !in users
    ensures outcome == SongNotFound <==> request.userId in users && request.songId !in songs
    ensures outcome == Saved <==> request.userId in users && request.songId in songs
  {
    if request.userId !in users then UserNotFound
    else if request.songId !in songs then SongNotFound
    else Saved
  }

  /** `new RankingResponse(rank, score)`: the rank and the score's user id, name and value. */
  function Entry(rank: int, s: Score): (entry: RankingResponse)
    ensures entry.rank == rank
    ensures entry.userId == s.user.userId && entry.username == s.user.username
    ensures entry.score == s.scoreValue
  {
    RankingResponse(rank, s.user.userId, s.user.username, s.scoreValue)
  }

  /** The fetched scores numbered from `first` on, in the order they came. */
  function Numbered(fetched: seq<Score>, first: int): (ranking: seq<RankingResponse>)
    ensures |ranking| == |fetched|
    ensures forall i :: 0 <= i < |fetched| ==> ranking[i] == Entry(first + i, fetched[i])
    decreases |fetched|
  {
    if fetched == [] then []
    else [Entry(first, fetched[0])] + Numbered(fetched[1..], first + 1)
  }

  /** The ranking of a fetched list: places 1 to n. */
  function Ranking(fetched: seq<Score>): seq<RankingResponse>
  {
    Numbered(fetched, 1)
  }

  /** Scores from best to worst, as the top-ten query returns them. */
  predicate Descending(fetched: seq<Score>)
  {
    forall i, j :: 0 <= i < j < |fetched| ==> fetched[i].scoreValue >= fetched[j].scoreValue
  }

  /** Ranks are consecutive from 1, hence strictly increasing. */
  lemma RanksConsecutive(fetched: seq<Score>)
    ensures forall i :: 0 <= i < |Ranking(fetched)| ==> Ranking(fetched)[i].rank == i + 1
    ensures forall i, j :: 0 <= i < j < |Ranking(fetched)| ==> Ranking(fetched)[i].rank < Ranking(fetched)[j].rank
  {
  }

  /**
   * A top-ten fetch in descending order gives at most ten entries whose
   * scores never increase down the list.
   */
  lemma TopTenRanking(fetched: seq<Score>)
    requires |fetched| <= 10 && Descending(fetched)
    ensures |Ranking(fetched)| <= 10
    ensures forall i, j :: 0 <= i < j < |Ranking(fetched)| ==> Ranking(fetched)[i].score >= Ranking(fetched)[j].score
  {
    var r := Ranking(fetched);
    forall i, j | 0 <= i < j < |r| ensures r[i].score >= r[j].score {
      assert r[i].score == fetched[i].scoreValue && r[j].score == fetched[j].scoreValue;
    }
  }

  class ScoreStore {
    const users: map<string, User>
    const songs: map<int, Song>
    var scores: seq<Score>

    constructor (users: map<string, User>, songs: map<int, Song>, scores: seq<Score>)
      ensures this.users == users && this.songs == songs && this.scores == scores
    {
      this.users := users;
      this.songs := songs;
      this.scores := scores;
    }

    /**
     * `saveScore`: find the user, then the song, then insert one score
     * linked to both and carrying the request's value. Either lookup failing
     * throws before anything is saved.
     */
    method SaveScore(request: ScoreRequest) returns (outcome: SaveOutcome)
      modifies this`scores
      ensures outcome == SaveCheck(users, songs, request)
      ensures outcome != Saved ==> scores == old(scores)
      ensures outcome == Saved ==>
        scores == old(scores) + [Score(users[request.userId], songs[request.songId], request.score)]
    {
      if request.userId !in users {
        return UserNotFound;
      }
      var user := users[request.userId];
      if request.songId !in songs {
        return SongNotFound;
      }
      var song := songs[request.songId];
      var score := Score(user, song, request.score);
      scores := scores + [score];
      outcome := Saved;
    }

    /**
     * `getRanking`: number the fetched top list 1..n. Read-only: the method
     * has no frame, so the store cannot change.
     */
    method GetRanking(fetched: seq<Score>) returns (responseList: seq<RankingResponse>)
      ensures |responseList| == |fetched|
      ensures forall i :: 0 <= i < |fetched| ==> responseList[i] == Entry(i + 1, fetched[i])
      ensures responseList == Ranking(fetched)
    {
      responseList := [];
      var i := 0;
      while i < |fetched|
        invariant 0 <= i <= |fetched|
        invariant |responseList| == i
        invariant forall k :: 0 <= k < i ==> responseList[k] == Entry(k + 1, fetched[k])
      {
        responseList := responseList + [Entry(i + 1, fetched[i])];
        i := i + 1;
      }
    }
  }
}
