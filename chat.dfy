/**
 * The chat preview of the landing page (`ChatPreview` in
 * app/components/CollegeChatLanding.tsx): every tick of its interval posts the
 * next of five canned messages and keeps only the three most recent on
 * screen. A tick is one call of `Tick`; the clock is its `now` parameter.
 */
module Chat {
  /** One entry of `collegeMessages`. */
  datatype Post = Post(username: string, content: string, color: string, avatar: string)

  /** A posted message: the entry spread with the time it was posted. */
  datatype Message = Message(post: Post, timestamp: int)

  function CollegeMessages(): seq<Post> {
    [
    Post("Sarah_CS", "Anyone up for a study group tonight? \U{1F4DA}", "text-blue-400", "bg-blue-500/30"),
    Post("Mike_Engineering", "Just finished my project! Coffee anyone? \U{2615}", "text-green-400", "bg-green-500/30"),
    Post("Emma_Art", "Check out my latest painting in the gallery! \U{1F3A8}", "text-purple-400", "bg-purple-500/30"),
    Post("Alex_Music", "Band practice at 7pm, see you there! \U{1F3B5}", "text-yellow-400", "bg-yellow-500/30"),
    Post("Lisa_Bio", "Lab results are in! Who wants to celebrate? \U{1F9EA}", "text-pink-400", "bg-pink-500/30")
  ]
  }

  /** JavaScript's `s.slice(-k)` for a positive `k`: the last `k` elements, or all of `s` if it is shorter. */
  function SliceLast<T>(s: seq<T>, k: nat): (r: seq<T>)
    requires k > 0
    ensures |r| == if |s| < k then |s| else k
  {
    if |s| <= k then s else s[|s| - k..]
  }

  /** The `setMessages` update: `[...prev.slice(-2), newMessage]`. */
  function Push(prev: seq<Message>, m: Message): seq<Message> {
    SliceLast(prev, 2) + [m]
  }

  /**
   * The update never shows more than three messages, puts the new one last,
   * and keeps the messages before it in their order.
   */
  lemma PushBounded(prev: seq<Message>, m: Message)
    ensures var r := Push(prev, m);
      |r| == (if |prev| < 2 then |prev| + 1 else 3) && r[|r| - 1] == m &&
      r[..|r| - 1] == prev[|prev| - (|r| - 1)..]
  {
  }

  /** Pushing onto the last three of a history shows the last three of the longer history. */
  lemma PushIsLastThree(history: seq<Message>, m: Message)
    ensures Push(SliceLast(history, 3), m) == SliceLast(history + [m], 3)
  {
    var h := history + [m];
    if |history| >= 3 {
      assert SliceLast(SliceLast(history, 3), 2) == history[|history| - 2..];
      assert h[|h| - 3..] == history[|history| - 2..] + [m];
    }
  }

  /** Advancing the index modulo five agrees with counting one more posted message. */
  lemma ModSuccessor(a: nat)
    ensures (a % 5 + 1) % 5 == (a + 1) % 5
  {
  }

  /**
   * What the chat always satisfies: the screen shows the last three messages
   * ever posted, posting cycles through the five entries in order, and the
   * index names the entry to post next.
   */
  ghost predicate Shows(entries: seq<Post>, messages: seq<Message>, currentIndex: nat, history: seq<Message>) {
    |entries| == 5 &&
    currentIndex == |history| % 5 &&
    messages == SliceLast(history, 3) &&
    forall n :: 0 <= n < |history| ==> history[n].post == entries[n % 5]
  }

  /** One tick keeps the invariant. */
  lemma TickPreservesShows(entries: seq<Post>, messages: seq<Message>, currentIndex: nat, history: seq<Message>, now: int)
    requires Shows(entries, messages, currentIndex, history)
    ensures currentIndex < |entries|
    ensures Shows(entries, Push(messages, Message(entries[currentIndex], now)), (currentIndex + 1) % 5,
                  history + [Message(entries[currentIndex], now)])
  {
    var m := Message(entries[currentIndex], now);
    var posted := history + [m];
    assert forall n :: 0 <= n < |posted| ==> posted[n].post == entries[n % 5] by {
      RotationStep(history, entries, m);
    }
    assert (currentIndex + 1) % 5 == |posted| % 5 by {
      ModSuccessor(|history|);
    }
    assert Push(messages, m) == SliceLast(posted, 3) by {
      PushIsLastThree(history, m);
    }
  }

  /** Posting the entry the index names keeps the history a rotation through the entries. */
  lemma RotationStep(history: seq<Message>, entries: seq<Post>, m: Message)
    requires |entries| == 5
    requires forall n :: 0 <= n < |history| ==> history[n].post == entries[n % 5]
    requires m.post == entries[|history| % 5]
    ensures forall n :: 0 <= n < |history + [m]| ==> (history + [m])[n].post == entries[n % 5]
  {
    var posted := history + [m];
    forall n | 0 <= n < |posted| ensures posted[n].post == entries[n % 5] {
      if n < |history| { assert posted[n] == history[n]; }
    }
  }

  /** The chat component: the messages on screen and the index of the next entry to post. */
  class ChatPreview {
    /** The component's `collegeMessages`. */
    const entries: seq<Post>
    var messages: seq<Message>
    var currentIndex: nat
    /** Every message posted so far, oldest first. */
    ghost var history: seq<Message>

    /**
     * The screen shows the last three messages ever posted, posting cycles
     * through the five entries in order, and the index names the next one.
     */
    ghost predicate Valid()
      reads this
    {
      Shows(entries, messages, currentIndex, history)
    }

    constructor ()
      ensures Valid()
      ensures entries == CollegeMessages()
      ensures messages == [] && currentIndex == 0 && history == []
    {
      entries := CollegeMessages();
      messages, currentIndex := [], 0;
      history := [];
    }

    /** One tick of the interval at time `now`. */
    method Tick(now: int)
      requires Valid()
      modifies this
      ensures Valid()
      ensures messages == Push(old(messages), Message(entries[old(currentIndex)], now))
      ensures currentIndex == (old(currentIndex) + 1) % 5
      ensures history == old(history) + [Message(entries[old(currentIndex)], now)]
    {
      var newMessage := Message(entries[currentIndex], now);
      var shown := Push(messages, newMessage);
      var next := (currentIndex + 1) % 5;  // `collegeMessages.length` is 5
      ghost var posted := history + [newMessage];
      assert Shows(entries, shown, next, posted) by {
        TickPreservesShows(entries, messages, currentIndex, history, now);
      }
      messages, currentIndex, history := shown, next, posted;
    }
  }
}
