/** The final answer stream of a diagnosis run: streamFinalAnswer of
    internal/module/agent/application/internal/core/loop.go. What the provider sends, and whether the client is
    still there, is arbitrary. */
module FinalAnswer {
  import opened Text

  /** One event of the stream; `sent` says whether its text reached the client. */
  datatype Piece = Broken(disconnected: bool) | Piece(delta: string, sent: bool, done: bool, content: string)

  /** A stream that could not be opened, or the events of one; `disconnected` says whether the client was gone
      when the stream could not be opened or ended without being complete. */
  datatype Stream = NotOpened(disconnected: bool) | Opened(pieces: seq<Piece>, disconnected: bool)

  /** How a run ends for the client: with an answer, with an error, or silently because the client is gone. */
  datatype End = Answer(text: string) | Error | Silent

  function Cut(disconnected: bool): End {
    if disconnected then Silent else Error
  }

  /** The text streamed, or the complete text if nothing was streamed; no text at all is an error. */
  function Completed(streamed: string, content: string): End {
    var answer := if TrimSpace(streamed) == "" then TrimSpace(content) else TrimSpace(streamed);
    if answer == "" then Error else Answer(answer)
  }

  /** The stream from its event `i` on, after `streamed`. */
  function Follow(s: Stream, i: nat, streamed: string): End
    requires s.Opened? && i <= |s.pieces|
    decreases |s.pieces| - i
  {
    if i == |s.pieces| then Cut(s.disconnected)
    else match s.pieces[i]
         case Broken(disconnected) => Cut(disconnected)
         case Piece(delta, sent, done, content) =>
           if delta != "" && !sent then Silent
           else if done then Completed(streamed + delta, content)
           else Follow(s, i + 1, streamed + delta)
  }

  function EndOf(s: Stream): End {
    if s.NotOpened? then Cut(s.disconnected) else Follow(s, 0, "")
  }

  method StreamFinalAnswer(s: Stream) returns (end: End)
    ensures end == EndOf(s)
  {
    hide TrimSpace;
    if s.NotOpened? {
      return if s.disconnected then Silent else Error;
    }
    var streamed, content, completed := "", "", false;
    for i := 0 to |s.pieces|
      invariant !completed && Follow(s, 0, "") == Follow(s, i, streamed)
    {
      if s.pieces[i].Broken? {
        return if s.pieces[i].disconnected then Silent else Error;
      }
      var piece := s.pieces[i];
      if piece.delta != "" {
        streamed := streamed + piece.delta;
        if !piece.sent {
          return Silent;
        }
      }
      assert piece.delta == "" ==> streamed + piece.delta == streamed;
      if piece.done {
        content, completed := piece.content, true;
        end := Completed(streamed, content);
        break;
      }
    }
    if !completed {
      return if s.disconnected then Silent else Error;
    }
    var answer := TrimSpace(streamed);
    if answer == "" {
      answer := TrimSpace(content);
    }
    return if answer == "" then Error else Answer(answer);
  }

  /** All text up to and including event `n`. */
  function TextOf(pieces: seq<Piece>, n: nat): string
    requires n <= |pieces|
  {
    if n == 0 then "" else TextOf(pieces, n - 1) + (if pieces[n - 1].Piece? then pieces[n - 1].delta else "")
  }

  predicate Passed(piece: Piece) {
    piece.Piece? && (piece.delta != "" ==> piece.sent)
  }

  /** The stream is complete at event `n`: all text reached the client and nothing before it ended the stream. */
  predicate CompleteAt(s: Stream, n: nat) {
    && s.Opened? && n < |s.pieces| && Passed(s.pieces[n]) && s.pieces[n].done
    && forall i :: 0 <= i < n ==> Passed(s.pieces[i]) && !s.pieces[i].done
  }

  lemma {:induction false} FollowToEnd(s: Stream, n: nat, i: nat)
    requires CompleteAt(s, n) && i <= n
    ensures Follow(s, i, TextOf(s.pieces, i)) == Completed(TextOf(s.pieces, n + 1), s.pieces[n].content)
    decreases n - i
  {
    hide TrimSpace, Completed;
    if i < n {
      FollowToEnd(s, n, i + 1);
    }
  }

  /** A complete stream ends with all its text, or with the complete text if it streamed none, or with an error if
      there is neither. */
  lemma CompleteStreamAnswers(s: Stream, n: nat)
    requires CompleteAt(s, n)
    ensures var streamed, content := TrimSpace(TextOf(s.pieces, n + 1)), TrimSpace(s.pieces[n].content);
            && (streamed != "" ==> EndOf(s) == Answer(streamed))
            && (streamed == "" && content != "" ==> EndOf(s) == Answer(content))
            && (streamed == "" && content == "" ==> EndOf(s) == Error)
  {
    hide TrimSpace;
    FollowToEnd(s, n, 0);
  }

  /** The event at which a stream that is never complete stops, which is its length if no event stops it. */
  lemma {:induction false} FollowStops(s: Stream, i: nat, streamed: string) returns (n: nat)
    requires s.Opened? && i <= |s.pieces| && forall j :: 0 <= j < i ==> Passed(s.pieces[j]) && !s.pieces[j].done
    ensures CompleteAt(s, n) || (n <= |s.pieces| && (n < |s.pieces| ==> !Passed(s.pieces[n])))
    ensures !CompleteAt(s, n) ==>
              && (Follow(s, i, streamed) == Silent <==>
                    if n == |s.pieces| then s.disconnected else s.pieces[n].Piece? || s.pieces[n].disconnected)
              && (Follow(s, i, streamed) != Silent ==> Follow(s, i, streamed) == Error)
    decreases |s.pieces| - i
  {
    hide TrimSpace, Completed;
    if i == |s.pieces| || !Passed(s.pieces[i]) || s.pieces[i].done {
      n := i;
    } else {
      n := FollowStops(s, i + 1, streamed + s.pieces[i].delta);
    }
  }

  /** Some event, or the end, of the stream found the client gone. */
  predicate LosesClient(s: Stream) {
    s.disconnected || (s.Opened? && exists i :: 0 <= i < |s.pieces| && Loses(s.pieces[i]))
  }

  predicate Loses(piece: Piece) {
    if piece.Broken? then piece.disconnected else piece.delta != "" && !piece.sent
  }

  /** A stream that is never complete ends silently exactly when what stops it, an event or its end, finds the client
      gone, and with an error otherwise. */
  lemma CutStreamEnds(s: Stream, n: nat)
    requires s.Opened? && n <= |s.pieces| && forall i :: 0 <= i < n ==> Passed(s.pieces[i]) && !s.pieces[i].done
    requires n < |s.pieces| ==> !Passed(s.pieces[n])
    ensures var gone := if n == |s.pieces| then s.disconnected else s.pieces[n].Piece? || s.pieces[n].disconnected;
            EndOf(s) == if gone then Silent else Error
  {
    hide TrimSpace, Completed;
    FollowCut(s, n, 0, "");
  }

  lemma {:induction false} FollowCut(s: Stream, n: nat, i: nat, streamed: string)
    requires s.Opened? && i <= n <= |s.pieces| && forall j :: 0 <= j < n ==> Passed(s.pieces[j]) && !s.pieces[j].done
    requires n < |s.pieces| ==> !Passed(s.pieces[n])
    ensures var gone := if n == |s.pieces| then s.disconnected else s.pieces[n].Piece? || s.pieces[n].disconnected;
            Follow(s, i, streamed) == if gone then Silent else Error
    decreases n - i
  {
    hide TrimSpace, Completed;
    if i < n {
      FollowCut(s, n, i + 1, streamed + s.pieces[i].delta);
    }
  }

  /** A stream ends silently only because the client was gone, and with an answer only when it was complete and said
      something; every other end is an error. */
  lemma StreamEndIsExplained(s: Stream)
    ensures EndOf(s) == Silent ==> LosesClient(s)
    ensures EndOf(s).Answer? ==> EndOf(s).text != "" && Trimmed(EndOf(s).text) && exists n: nat :: CompleteAt(s, n)
  {
    hide TrimSpace, Follow;
    if s.Opened? {
      var n := FollowStops(s, 0, "");
      if CompleteAt(s, n) {
        CompleteStreamAnswers(s, n);
      } else if n < |s.pieces| && EndOf(s) == Silent {
        assert Loses(s.pieces[n]);
      }
    }
  }
}
