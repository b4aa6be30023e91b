/**
 * The raffle draw: winners are taken one at a time from a shrinking copy of
 * the participant list, each at an index the random source picks, until the
 * winner count is reached or no candidate is left. The picks that
 * `Math.floor(Math.random() * n)` would produce are an input here.
 */
module Draw {
  import opened Options
  import opened Text

  /** A chat user's identity (a snowflake id string). */
  type UserId = string

  /** No identity occurs twice. */
  predicate NoDuplicates<T(==)>(s: seq<T>)
  {
    forall i, j :: 0 <= i < j < |s| ==> s[i] != s[j]
  }

  /** How many winners a draw of `winnerCount` from `n` candidates yields:
      `min(max(winnerCount, 0), n)`. */
  function DrawCount(winnerCount: int, n: nat): (count: nat)
    ensures count <= n && count <= (if winnerCount > 0 then winnerCount else 0)
    ensures count == n || count == (if winnerCount > 0 then winnerCount else 0)
  {
    if winnerCount <= 0 then 0 else if winnerCount < n then winnerCount else n
  }

  /** Random picks a draw from `n` candidates can receive: the `j`-th pick is an
      index into the `n - j` candidates still left. */
  predicate ValidPicks(picks: seq<nat>, n: nat)
  {
    picks == [] || (0 < n && picks[0] < n && ValidPicks(picks[1..], n - 1))
  }

  /** The recursive definition of valid picks says what its doc comment says:
      every pick is an index into the candidates left at that point. */
  lemma {:induction false} ValidPicksIndices(picks: seq<nat>, n: nat)
    ensures ValidPicks(picks, n) <==> forall j :: 0 <= j < |picks| ==> picks[j] < n - j
    decreases |picks|
  {
    if picks != [] && n == 0 {
      assert !(picks[0] < n - 0);
    } else if picks != [] {
      ValidPicksIndices(picks[1..], n - 1);
      if forall j :: 0 <= j < |picks| ==> picks[j] < n - j {
        assert picks[0] < n - 0;
        forall j | 0 <= j < |picks[1..]| ensures picks[1..][j] < n - 1 - j {
          assert picks[1..][j] == picks[j + 1];
        }
      }
      if ValidPicks(picks, n) {
        forall j | 0 <= j < |picks| ensures picks[j] < n - j {
          if j > 0 {
            assert picks[j] == picks[1..][j - 1];
          }
        }
      }
    }
  }

  /** `candidates.splice(i, 1)`: the list without its `i`-th element. */
  function RemoveAt<T>(s: seq<T>, i: nat): (r: seq<T>)
    requires i < |s|
    ensures |r| == |s| - 1
    ensures forall k :: 0 <= k < |r| ==> r[k] == s[if k < i then k else k + 1]
  {
    s[..i] + s[i + 1..]
  }

  /** `splice(i, 1)` removes exactly the picked element: one occurrence of it,
      and nothing else. */
  lemma RemoveAtMultiset<T>(s: seq<T>, i: nat)
    requires i < |s|
    ensures multiset(RemoveAt(s, i)) + multiset{s[i]} == multiset(s)
  {
    assert s == s[..i] + [s[i]] + s[i + 1..];
  }

  /** The winners, in the order they are drawn, when the draw takes
      `candidates[picks[0]]`, then picks again from the rest, and so on. */
  function DrawSpec<T>(candidates: seq<T>, winnerCount: int, picks: seq<nat>): (winners: seq<T>)
    requires |picks| == DrawCount(winnerCount, |candidates|)
    requires ValidPicks(picks, |candidates|)
    ensures |winners| == DrawCount(winnerCount, |candidates|)
    decreases |picks|
  {
    if winnerCount <= 0 || |candidates| == 0 then []
    else
      var i := picks[0];
      [candidates[i]] + DrawSpec(RemoveAt(candidates, i), winnerCount - 1, picks[1..])
  }

  /** One step of a draw: the first pick names the first winner, and the
      remaining picks fit the remaining candidates and winner count. */
  lemma DrawStep<T>(candidates: seq<T>, winnerCount: int, picks: seq<nat>)
    requires |picks| == DrawCount(winnerCount, |candidates|)
    requires ValidPicks(picks, |candidates|)
    requires winnerCount > 0 && |candidates| > 0
    ensures |picks| > 0 && picks[0] < |candidates|
    ensures |picks[1..]| == DrawCount(winnerCount - 1, |candidates| - 1)
    ensures ValidPicks(picks[1..], |candidates| - 1)
    ensures DrawSpec(candidates, winnerCount, picks)
         == [candidates[picks[0]]] + DrawSpec(RemoveAt(candidates, picks[0]), winnerCount - 1, picks[1..])
  {
  }

  /** Every winner is drawn from the candidates, and no candidate wins more
      often than it occurs among them. */
  lemma {:induction false} DrawSpecFromCandidates<T>(candidates: seq<T>, winnerCount: int, picks: seq<nat>)
    requires |picks| == DrawCount(winnerCount, |candidates|)
    requires ValidPicks(picks, |candidates|)
    ensures multiset(DrawSpec(candidates, winnerCount, picks)) <= multiset(candidates)
    decreases |picks|
  {
    if winnerCount > 0 && |candidates| > 0 {
      DrawStep(candidates, winnerCount, picks);
      var i := picks[0];
      var rest := RemoveAt(candidates, i);
      var later := DrawSpec(rest, winnerCount - 1, picks[1..]);
      DrawSpecFromCandidates(rest, winnerCount - 1, picks[1..]);
      PrependFromCandidates(candidates, i, later);
    }
  }

  /** A pick followed by winners drawn from the other candidates is drawn from
      all candidates. */
  lemma PrependFromCandidates<T>(candidates: seq<T>, i: nat, later: seq<T>)
    requires i < |candidates|
    requires multiset(later) <= multiset(RemoveAt(candidates, i))
    ensures multiset([candidates[i]] + later) <= multiset(candidates)
  {
    RemoveAtMultiset(candidates, i);
    var first := multiset{candidates[i]};
    var drawnLater, left := multiset(later), multiset(RemoveAt(candidates, i));
    UnionGrows(first, drawnLater, left);
    assert multiset([candidates[i]] + later) == first + drawnLater;
  }

  /** Adding the same multiset to both sides keeps a sub-multiset one. */
  lemma UnionGrows<T>(a: multiset<T>, b: multiset<T>, c: multiset<T>)
    requires b <= c
    ensures a + b <= a + c
  {
  }

  /** Removing one entry of a list without duplicates leaves a list without
      duplicates that no longer holds that entry. */
  lemma RemoveAtDistinct<T>(s: seq<T>, i: nat)
    requires i < |s| && NoDuplicates(s)
    ensures NoDuplicates(RemoveAt(s, i)) && s[i] !in RemoveAt(s, i)
  {
  }

  /** Putting a new identity in front of a list without duplicates keeps it so. */
  lemma PrependDistinct<T>(x: T, s: seq<T>)
    requires NoDuplicates(s) && x !in s
    ensures NoDuplicates([x] + s)
  {
  }

  /** From candidates without duplicates, the winners are pairwise distinct. */
  lemma {:induction false} DrawSpecDistinct<T>(candidates: seq<T>, winnerCount: int, picks: seq<nat>)
    requires |picks| == DrawCount(winnerCount, |candidates|)
    requires ValidPicks(picks, |candidates|)
    requires NoDuplicates(candidates)
    ensures NoDuplicates(DrawSpec(candidates, winnerCount, picks))
    decreases |picks|
  {
    if winnerCount > 0 && |candidates| > 0 {
      DrawStep(candidates, winnerCount, picks);
      RemoveAtDistinct(candidates, picks[0]);
      DrawSpecDistinct(RemoveAt(candidates, picks[0]), winnerCount - 1, picks[1..]);
      PrependDistinctPick(candidates, winnerCount, picks);
    }
  }

  /** The first winner of a draw from candidates without duplicates, followed
      by distinct later winners, gives distinct winners: the later winners come
      from the candidates left after the first pick. */
  lemma PrependDistinctPick<T>(candidates: seq<T>, winnerCount: int, picks: seq<nat>)
    requires |picks| == DrawCount(winnerCount, |candidates|)
    requires ValidPicks(picks, |candidates|)
    requires winnerCount > 0 && |candidates| > 0
    requires NoDuplicates(candidates)
    requires NoDuplicates(DrawSpec(RemoveAt(candidates, picks[0]), winnerCount - 1, picks[1..]))
    ensures NoDuplicates(DrawSpec(candidates, winnerCount, picks))
  {
    DrawStep(candidates, winnerCount, picks);
    var i := picks[0];
    var rest := RemoveAt(candidates, i);
    var later := DrawSpec(rest, winnerCount - 1, picks[1..]);
    DrawSpecFromCandidates(rest, winnerCount - 1, picks[1..]);
    RemoveAtDistinct(candidates, i);
    SubMultisetMembers(later, rest, candidates[i]);
    PrependDistinct(candidates[i], later);
  }

  /** What a sequence draws from another it does not hold either. */
  lemma SubMultisetMembers<T>(drawn: seq<T>, from: seq<T>, x: T)
    requires multiset(drawn) <= multiset(from)
    ensures x in drawn ==> x in from
  {
    if x in drawn {
      assert multiset(drawn)[x] <= multiset(from)[x];
    }
  }

  /** When the winner count reaches the number of candidates, everyone wins. */
  lemma EveryoneWins<T>(candidates: seq<T>, winnerCount: int, picks: seq<nat>)
    requires |picks| == DrawCount(winnerCount, |candidates|)
    requires ValidPicks(picks, |candidates|)
    requires winnerCount >= |candidates|
    ensures multiset(DrawSpec(candidates, winnerCount, picks)) == multiset(candidates)
  {
    DrawSpecFromCandidates(candidates, winnerCount, picks);
    var ws := DrawSpec(candidates, winnerCount, picks);
    assert |multiset(ws)| == |multiset(candidates)|;
    assert multiset(candidates) - multiset(ws) == multiset{} by {
      assert |multiset(candidates) - multiset(ws)| == |multiset(candidates)| - |multiset(ws)|;
    }
  }

  /** One turn of the draw loop: moving the picked candidate to the end of the
      winners keeps the winners-so-far followed by the rest of the draw equal
      to the whole draw. */
  lemma DrawLoopStep<T>(winners: seq<T>, candidates: seq<T>, k: int, unused: seq<nat>, whole: seq<T>)
    requires |unused| == DrawCount(k, |candidates|) && ValidPicks(unused, |candidates|)
    requires k > 0 && |candidates| > 0
    requires winners + DrawSpec(candidates, k, unused) == whole
    ensures |unused| > 0 && unused[0] < |candidates|
    ensures |unused[1..]| == DrawCount(k - 1, |candidates| - 1)
    ensures ValidPicks(unused[1..], |candidates| - 1)
    ensures (winners + [candidates[unused[0]]]) + DrawSpec(RemoveAt(candidates, unused[0]), k - 1, unused[1..]) == whole
  {
  }

  /** What a draw yields, all in one place: the right number of winners, all
      drawn from the candidates, and distinct when the candidates are. */
  lemma DrawSpecFacts<T>(candidates: seq<T>, winnerCount: int, picks: seq<nat>)
    requires |picks| == DrawCount(winnerCount, |candidates|)
    requires ValidPicks(picks, |candidates|)
    ensures |DrawSpec(candidates, winnerCount, picks)| == DrawCount(winnerCount, |candidates|)
    ensures multiset(DrawSpec(candidates, winnerCount, picks)) <= multiset(candidates)
    ensures NoDuplicates(candidates) ==> NoDuplicates(DrawSpec(candidates, winnerCount, picks))
  {
    DrawSpecFromCandidates(candidates, winnerCount, picks);
    if NoDuplicates(candidates) {
      DrawSpecDistinct(candidates, winnerCount, picks);
    }
  }

  /** The draw loop: it copies the participant list and, while fewer winners
      than `winnerCount` are drawn and candidates remain, moves the picked
      candidate from the copy to the end of the winners. */
  method DrawWinners<T(==)>(participants: seq<T>, winnerCount: int, picks: seq<nat>) returns (winners: seq<T>)
    requires |picks| == DrawCount(winnerCount, |participants|)
    requires ValidPicks(picks, |participants|)
    ensures winners == DrawSpec(participants, winnerCount, picks)
    ensures |winners| == DrawCount(winnerCount, |participants|)
    ensures multiset(winners) <= multiset(participants)
    ensures NoDuplicates(participants) ==> NoDuplicates(winners)
  {
    winners := [];
    var candidates := participants;
    var unused := picks;
    while |winners| < winnerCount && |candidates| > 0
      invariant |unused| == DrawCount(winnerCount - |winners|, |candidates|)
      invariant ValidPicks(unused, |candidates|)
      invariant winners + DrawSpec(candidates, winnerCount - |winners|, unused)
             == DrawSpec(participants, winnerCount, picks)
      decreases |candidates|
    {
      DrawLoopStep(winners, candidates, winnerCount - |winners|, unused, DrawSpec(participants, winnerCount, picks));
      var index := unused[0];
      winners := winners + [candidates[index]];
      candidates := RemoveAt(candidates, index);
      unused := unused[1..];
    }
    DrawSpecFacts(participants, winnerCount, picks);
  }

  /** How a winner is announced: `<@id>`. */
  function Mention(id: UserId): string
  {
    "<@" + id + ">"
  }

  /** The identity inside a `<@id>` mention, if the text is one. */
  function MentionedId(text: string): Option<UserId>
  {
    if |text| >= 3 && text[..2] == "<@" && text[|text| - 1] == '>' then Some(text[2..|text| - 1]) else None
  }

  /** The winners' mentions, in selection order. */
  function Mentions(ws: seq<UserId>): (ms: seq<string>)
    ensures |ms| == |ws|
    ensures forall i :: 0 <= i < |ws| ==> MentionedId(ms[i]) == Some(ws[i])
  {
    seq(|ws|, i requires 0 <= i < |ws| => Mention(ws[i]))
  }

  /** The winner lines of the announcement: the mentions joined by newlines. */
  function WinnersText(ws: seq<UserId>): (text: string)
    ensures text == "" <==> ws == []
  {
    Join(Mentions(ws), '\n')
  }

  /** The first line of the winners announcement. */
  const AnnouncementTitle: string := "\U{1F389} **VENCEDORES:**"

  /** The public reply that announces the winners. */
  function Announcement(ws: seq<UserId>): string
  {
    AnnouncementTitle + "\n" + WinnersText(ws)
  }

  /** The winner lines read back, line by line, give the winners in the order
      they were drawn; no winner gives an empty text. */
  lemma WinnersTextRoundTrip(ws: seq<UserId>)
    requires forall i :: 0 <= i < |ws| ==> '\n' !in ws[i]
    ensures ws == [] ==> WinnersText(ws) == ""
    ensures ws != [] ==>
      var lines := Split(WinnersText(ws), '\n');
      |lines| == |ws| && forall i :: 0 <= i < |ws| ==> MentionedId(lines[i]) == Some(ws[i])
  {
    if ws != [] {
      var ms := Mentions(ws);
      forall i | 0 <= i < |ms| ensures '\n' !in ms[i] {
        assert ms[i] == "<@" + ws[i] + ">";
      }
      SplitJoin(ms, '\n');
    }
  }

  /** The announcement, read line by line, is its title line and then one
      mention per winner, in the order they were drawn; with no winner the
      title is followed by an empty line. */
  lemma AnnouncementLines(ws: seq<UserId>)
    requires forall i :: 0 <= i < |ws| ==> '\n' !in ws[i]
    ensures ws == [] ==> Split(Announcement(ws), '\n') == [AnnouncementTitle, ""]
    ensures ws != [] ==> Split(Announcement(ws), '\n') == [AnnouncementTitle] + Mentions(ws)
  {
    SplitConcat(AnnouncementTitle, WinnersText(ws), '\n');
    WinnersTextRoundTrip(ws);
    if ws != [] {
      var ms := Mentions(ws);
      forall i | 0 <= i < |ms| ensures '\n' !in ms[i] {
        assert ms[i] == "<@" + ws[i] + ">";
      }
      SplitJoin(ms, '\n');
    }
  }
}
