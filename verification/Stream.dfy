/** Streaming one message component: chunks go out as they come, speech goes out in pieces, the
    whole text is stored (agent/canvas.py, `_process_stream`). */
module Stream {
  import opened PyValues

  /** A chunk that is not a think tag is sent with the text to speak, if it is time to speak. */
  datatype Event = StartThink | EndThink | Message(content: string, spoken: Option<string>)

  predicate IsTag(m: string) {
    m == "<think>" || m == "</think>"
  }

  predicate IsText(m: string) {
    m != "" && !IsTag(m)
  }

  function Concat(texts: seq<string>): string {
    if texts == [] then "" else texts[0] + Concat(texts[1..])
  }

  /** The chunks that are sent at all. */
  function Sent(chunks: seq<string>): seq<string> {
    if chunks == [] then [] else (if chunks[0] != "" then [chunks[0]] else []) + Sent(chunks[1..])
  }

  function Texts(chunks: seq<string>): seq<string> {
    if chunks == [] then [] else (if IsText(chunks[0]) then [chunks[0]] else []) + Texts(chunks[1..])
  }

  /** The whole reply: everything the chunks say outside the tags. */
  function Reply(chunks: seq<string>): string {
    Concat(Texts(chunks))
  }

  lemma {:induction false} TextsConcat(a: seq<string>, b: seq<string>)
    ensures Texts(a + b) == Texts(a) + Texts(b)
    decreases |a|
  {
    if a == [] {
      assert a + b == b;
    } else {
      assert (a + b)[0] == a[0] && (a + b)[1..] == a[1..] + b;
      TextsConcat(a[1..], b);
    }
  }

  lemma {:induction false} ConcatConcat(a: seq<string>, b: seq<string>)
    ensures Concat(a + b) == Concat(a) + Concat(b)
  {
    if a == [] {
      assert a + b == b;
    } else {
      assert (a + b)[0] == a[0] && (a + b)[1..] == a[1..] + b;
      ConcatConcat(a[1..], b);
    }
  }

  /** Every chunk is part of the reply in its place, and the two tags are not. */
  lemma ChunkInReply(before: seq<string>, m: string, after: seq<string>)
    ensures Reply(before + [m] + after)
         == Reply(before) + (if m == "<think>" || m == "</think>" then "" else m) + Reply(after)
  {
    hide Texts, Concat;
    TextsConcat(before + [m], after);
    TextsConcat(before, [m]);
    ConcatConcat(Texts(before) + Texts([m]), Texts(after));
    ConcatConcat(Texts(before), Texts([m]));
    OneText(m);
  }

  lemma OneText(m: string)
    ensures Concat(Texts([m])) == if m == "<think>" || m == "</think>" then "" else m
  {
    assert [m][1..] == [];
    assert Texts([m]) == (if IsText(m) then [m] else []) + Texts([]);
    if IsText(m) {
      assert Concat([m]) == m + Concat([]);
    }
  }

  /** What an event shows of its chunk. */
  function Shown(e: Event): string {
    match e
    case StartThink => "<think>"
    case EndThink => "</think>"
    case Message(content, _) => content
  }

  function ShownAll(events: seq<Event>): (r: seq<string>)
    ensures |r| == |events| && forall i :: 0 <= i < |r| ==> r[i] == Shown(events[i])
  {
    seq(|events|, i requires 0 <= i < |events| => Shown(events[i]))
  }

  function Contents(events: seq<Event>): string {
    if events == [] then ""
    else (if events[0].Message? then events[0].content else "") + Contents(events[1..])
  }

  /** The texts sent to speech, in order. */
  function Spoken(events: seq<Event>): seq<string> {
    if events == [] then []
    else (if events[0].Message? && events[0].spoken.Some? then [events[0].spoken.value] else [])
         + Spoken(events[1..])
  }

  lemma ConcatSnoc(texts: seq<string>, t: string)
    ensures Concat(texts + [t]) == Concat(texts) + t
  {
    ConcatConcat(texts, [t]);
    assert [t][1..] == [];
    assert Concat([t]) == t + Concat([]);
  }

  lemma TextsSnoc(chunks: seq<string>, m: string)
    ensures Texts(chunks + [m]) == Texts(chunks) + if IsText(m) then [m] else []
  {
    TextsConcat(chunks, [m]);
    assert [m][1..] == [];
    assert Texts([m]) == (if IsText(m) then [m] else []) + Texts([]);
  }

  lemma {:induction false} SentSnoc(chunks: seq<string>, m: string)
    ensures Sent(chunks + [m]) == Sent(chunks) + if m != "" then [m] else []
    decreases |chunks|
  {
    if chunks == [] {
      assert [m][1..] == [];
    } else {
      assert (chunks + [m])[0] == chunks[0] && (chunks + [m])[1..] == chunks[1..] + [m];
      SentSnoc(chunks[1..], m);
    }
  }

  lemma ChunksSnoc(chunks: seq<string>, m: string)
    ensures Sent(chunks + [m]) == Sent(chunks) + if m != "" then [m] else []
    ensures Reply(chunks + [m]) == Reply(chunks) + if IsText(m) then m else ""
  {
    hide Texts, Sent, Concat;
    TextsSnoc(chunks, m);
    SentSnoc(chunks, m);
    ConcatSnoc(Texts(chunks), m);
    assert Texts(chunks) + [] == Texts(chunks) && Reply(chunks) + "" == Reply(chunks);
  }

  lemma {:induction false} ContentsSnoc(events: seq<Event>, e: Event)
    ensures Contents(events + [e]) == Contents(events) + if e.Message? then e.content else ""
  {
    if events == [] {
      assert [e][1..] == [];
    } else {
      assert (events + [e])[0] == events[0] && (events + [e])[1..] == events[1..] + [e];
      ContentsSnoc(events[1..], e);
    }
  }

  lemma {:induction false} SpokenSnoc(events: seq<Event>, e: Event)
    ensures Spoken(events + [e]) == Spoken(events) + if e.Message? && e.spoken.Some? then [e.spoken.value] else []
  {
    if events == [] {
      assert [e][1..] == [];
    } else {
      assert (events + [e])[0] == events[0] && (events + [e])[1..] == events[1..] + [e];
      SpokenSnoc(events[1..], e);
    }
  }

  lemma EventsSnoc(events: seq<Event>, e: Event)
    ensures Contents(events + [e]) == Contents(events) + if e.Message? then e.content else ""
    ensures Spoken(events + [e]) == Spoken(events) + if e.Message? && e.spoken.Some? then [e.spoken.value] else []
    ensures ShownAll(events + [e]) == ShownAll(events) + [Shown(e)]
  {
    hide Contents, Spoken;
    ContentsSnoc(events, e);
    SpokenSnoc(events, e);
  }

  /** At no time more than 16 characters of what was sent are still unspoken. */
  ghost predicate SpokenInTime(events: seq<Event>) {
    forall k | 0 <= k <= |events| :: |Contents(events[..k])| <= |Concat(Spoken(events[..k]))| + 16
  }

  lemma InTimeSnoc(events: seq<Event>, e: Event)
    requires SpokenInTime(events)
    requires |Contents(events + [e])| <= |Concat(Spoken(events + [e]))| + 16
    ensures SpokenInTime(events + [e])
  {
    hide Contents, Concat, Spoken;
    var more := events + [e];
    forall k | 0 <= k <= |more| ensures |Contents(more[..k])| <= |Concat(Spoken(more[..k]))| + 16 {
      if k <= |events| {
        assert more[..k] == events[..k];
      } else {
        assert more[..k] == more;
      }
    }
  }

  /** Every chunk but the empty ones goes out, in order and unchanged; the contents sent, the
      pieces spoken and the text stored are all the whole reply; and only the last piece spoken
      may be 16 characters or shorter, and never are more than 16 characters left unspoken. */
  method StreamMessage(chunks: seq<string>) returns (events: seq<Event>, stored: string)
    ensures stored == Contents(events) == Concat(Spoken(events)) == Reply(chunks)
    ensures exists flushed: seq<string> ::
      ShownAll(events) == Sent(chunks) + flushed && (flushed == [] || flushed == [""])
    ensures forall i | 0 <= i < |Spoken(events)| - 1 :: |Spoken(events)[i]| > 16
    ensures forall i | 0 <= i < |Spoken(events)| :: Spoken(events)[i] != ""
    ensures SpokenInTime(events)
  {
    hide Concat, Sent, Texts, Contents, Spoken, ShownAll, SpokenInTime;
    events, stored := [], "";
    var buffer := "";
    Nothing();
    NothingUnspoken();
    for k := 0 to |chunks|
      invariant stored == Contents(events) == Reply(chunks[..k])
      invariant Concat(Spoken(events)) + buffer == stored
      invariant ShownAll(events) == Sent(chunks[..k])
      invariant forall i | 0 <= i < |Spoken(events)| :: |Spoken(events)[i]| > 16
      invariant |buffer| <= 16
      invariant SpokenInTime(events)
    {
      var m := chunks[k];
      assert chunks[..k + 1] == chunks[..k] + [m];
      ChunksSnoc(chunks[..k], m);
      if m != "" {
        var e;
        if m == "<think>" {
          e := StartThink;
        } else if m == "</think>" {
          e := EndThink;
        } else {
          assert Concat(Spoken(events)) + (buffer + m) == Concat(Spoken(events)) + buffer + m;
          buffer := buffer + m;
          stored := stored + m;
          if |buffer| > 16 {
            e := Message(m, Some(buffer));
            ConcatSnoc(Spoken(events), buffer);
            buffer := "";
          } else {
            e := Message(m, None);
          }
        }
        EventsSnoc(events, e);
        assert Spoken(events) + [] == Spoken(events);
        assert Contents(events + [e]) == Concat(Spoken(events + [e])) + buffer;
        InTimeSnoc(events, e);
        events := events + [e];
        assert Concat(Spoken(events)) + "" == Concat(Spoken(events));
      }
    }
    assert chunks[..|chunks|] == chunks;
    ghost var flushed: seq<string> := [];
    assert ShownAll(events) == Sent(chunks) + flushed;
    if buffer != "" {
      EventsSnoc(events, Message("", Some(buffer)));
      ConcatSnoc(Spoken(events), buffer);
      assert Contents(events + [Message("", Some(buffer))]) == Concat(Spoken(events + [Message("", Some(buffer))]));
      InTimeSnoc(events, Message("", Some(buffer)));
      events := events + [Message("", Some(buffer))];
      flushed := [""];
    }
    assert ShownAll(events) == Sent(chunks) + flushed;
  }

  lemma NothingUnspoken()
    ensures SpokenInTime([])
  {
  }

  lemma Nothing()
    ensures Reply([]) == "" && Contents([]) == "" && Concat([]) == "" && Spoken([]) == []
    ensures ShownAll([]) == [] && Sent([]) == []
  {
  }
}
