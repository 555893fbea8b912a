/** Splitting a backlog by the channel's budget (apps/server/src/backlog-budget.ts). */
module Backlog {
  const BACKLOG_MIN_SHOWN := 20
  const MESSAGE_OVERHEAD_CHARS := 40

  /** A message: how long its searchable text is, and the images among its parts in order. */
  datatype Message = Message(textLength: nat, images: seq<string>)

  datatype Selection = Selection(shown: seq<Message>, folded: seq<Message>, pictures: set<string>)

  /** What a run of messages costs. */
  function Cost(messages: seq<Message>): (r: nat)
    ensures r >= MESSAGE_OVERHEAD_CHARS * |messages|
  {
    if messages == [] then 0
    else messages[0].textLength + MESSAGE_OVERHEAD_CHARS + Cost(messages[1..])
  }

  /** Messages that may be read one by one: within the budget, or few enough. */
  predicate MayShow(messages: seq<Message>, budget: int) {
    Cost(messages) <= budget || |messages| <= BACKLOG_MIN_SHOWN
  }

  /** The text of the messages, each with its overhead, is within the budget; or there are at most twenty. */
  predicate Fits(messages: seq<Message>, budget: int) {
    |messages| <= 20 || Cost(messages) <= budget
  }

  lemma {:induction false} CostGrows(messages: seq<Message>, i: nat, j: nat)
    requires i <= j <= |messages|
    ensures Cost(messages[j..]) <= Cost(messages[i..])
    decreases j - i
  {
    if i < j {
      assert messages[i..][1..] == messages[i + 1..];
      CostGrows(messages, i + 1, j);
    }
  }

  /** Suffixes of what may be shown may be shown, so there is one longest suffix that may. */
  lemma MayShowShorter(messages: seq<Message>, i: nat, j: nat, budget: int)
    requires i <= j <= |messages| && MayShow(messages[i..], budget)
    ensures MayShow(messages[j..], budget)
  {
    CostGrows(messages, i, j);
  }

  function Reversed(images: seq<string>): (r: seq<string>)
    ensures |r| == |images|
    ensures forall x :: x in r <==> x in images
  {
    if images == [] then [] else Reversed(images[1..]) + [images[0]]
  }

  /** All images of the messages, those of the newest message first and the last one of each message first. */
  function NewestFirst(messages: seq<Message>): seq<string> {
    if messages == [] then [] else NewestFirst(messages[1..]) + Reversed(messages[0].images)
  }

  function Elements(images: seq<string>): set<string> {
    set x | x in images
  }

  /** The first `limit` different images of a list, when it has that many. */
  function Firsts(images: seq<string>, limit: int): set<string> {
    if images == [] then {}
    else
      var before := Firsts(images[..|images| - 1], limit);
      if |before| >= limit then before else before + {images[|images| - 1]}
  }

  /** The different images of the first `n`, cut short only because there are `limit` of them. */
  predicate Reaches(images: seq<string>, pictures: set<string>, n: nat, limit: nat) {
    n <= |images| && pictures == Elements(images[..n]) && (n == |images| || |pictures| == limit)
  }

  lemma ElementsOfOneMore(images: seq<string>)
    requires images != []
    ensures Elements(images) == Elements(images[..|images| - 1]) + {images[|images| - 1]}
  {
    assert images == images[..|images| - 1] + [images[|images| - 1]];
  }

  lemma AtMostOneMore(pictures: set<string>, x: string)
    ensures |pictures + {x}| <= |pictures| + 1
  {
  }

  lemma PrefixOfPrefix(images: seq<string>, n: nat)
    requires n < |images|
    ensures images[..|images| - 1][..n] == images[..n] && images[..|images|] == images
  {
  }

  /**
   What `Firsts` means: the different images of one prefix of the list. Either that is the whole list and it has no more
   than `limit` of them, or it has exactly `limit`.
   */
  lemma {:induction false} FirstsAreAPrefix(images: seq<string>, limit: nat) returns (n: nat)
    ensures |Firsts(images, limit)| <= limit && Reaches(images, Firsts(images, limit), n, limit)
  {
    if images == [] {
      return 0;
    }
    var last := |images| - 1;
    n := FirstsAreAPrefix(images[..last], limit);
    assert limit <= |Firsts(images[..last], limit)| || n == last;
    PrefixOfPrefix(images, n);
    if |Firsts(images[..last], limit)| < limit {
      ElementsOfOneMore(images);
      AtMostOneMore(Firsts(images[..last], limit), images[last]);
      n := |images|;
    }
  }

  lemma {:induction false} FirstsOnceFull(a: seq<string>, b: seq<string>, limit: int)
    requires |Firsts(a, limit)| >= limit
    ensures Firsts(a + b, limit) == Firsts(a, limit)
  {
    if b == [] {
      assert a + b == a;
    } else {
      assert (a + b)[..|a + b| - 1] == a + b[..|b| - 1];
      FirstsOnceFull(a, b[..|b| - 1], limit);
    }
  }

  lemma {:induction false} NewestFirstSplits(messages: seq<Message>, k: nat)
    requires k <= |messages|
    ensures NewestFirst(messages) == NewestFirst(messages[k..]) + NewestFirst(messages[..k])
  {
    if k == 0 {
      assert messages[0..] == messages && NewestFirst(messages[..0]) == [];
    } else {
      assert messages[1..][k - 1..] == messages[k..] && messages[1..][..k - 1] == messages[..k][1..];
      NewestFirstSplits(messages[1..], k - 1);
    }
  }

  lemma FirstsOfNewer(messages: seq<Message>, k: nat, limit: int)
    requires k <= |messages| && |Firsts(NewestFirst(messages[k..]), limit)| >= limit
    ensures Firsts(NewestFirst(messages), limit) == Firsts(NewestFirst(messages[k..]), limit)
  {
    NewestFirstSplits(messages, k);
    FirstsOnceFull(NewestFirst(messages[k..]), NewestFirst(messages[..k]), limit);
  }

  lemma FirstsOfOneMore(images: seq<string>, next: string, limit: int)
    ensures Firsts(images + [next], limit) ==
            if |Firsts(images, limit)| >= limit then Firsts(images, limit) else Firsts(images, limit) + {next}
  {
    assert (images + [next])[..|images|] == images;
  }

  /**
   Nothing is lost and nothing is reordered; with a positive budget the shown messages are the longest suffix that fits
   it or is no longer than the minimum, without one everything is shown; the pictures are the first images counted from
   the newest shown message.
   */
  method SelectBacklog(events: seq<Message>, backlogTextChars: int, backlogImages: int) returns (r: Selection)
    ensures r.folded + r.shown == events
    ensures backlogTextChars <= 0 ==> r.folded == []
    ensures backlogTextChars > 0 ==>
      forall i :: 0 <= i <= |events| ==> (Fits(events[i..], backlogTextChars) <==> |r.folded| <= i)
    ensures r.pictures == Firsts(NewestFirst(r.shown), backlogImages)
  {
    hide Firsts, NewestFirst, Reversed;
    var cut := 0;
    if backlogTextChars > 0 {
      cut := Cut(events, backlogTextChars);
      forall i | 0 <= i <= |events| ensures MayShow(events[i..], backlogTextChars) <==> Fits(events[i..], backlogTextChars) {}
    }
    var pictures := Pictures(events[cut..], backlogImages);
    r := Selection(events[cut..], events[..cut], pictures);
  }

  method Cut(events: seq<Message>, budget: int) returns (cut: nat)
    requires budget > 0
    ensures cut <= |events|
    ensures forall i :: 0 <= i <= |events| ==> (MayShow(events[i..], budget) <==> cut <= i)
  {
    var used := 0;
    cut := |events|;
    var index := |events| - 1;
    while index >= 0
      invariant -1 <= index < |events| && cut == index + 1
      invariant used == Cost(events[cut..]) && MayShow(events[cut..], budget)
    {
      assert events[index..][1..] == events[index + 1..];
      used := used + events[index].textLength + MESSAGE_OVERHEAD_CHARS;
      if used > budget && |events| - index > BACKLOG_MIN_SHOWN {
        assert !MayShow(events[index..], budget);
        break;
      }
      cut := index;
      index := index - 1;
    }
    forall i | 0 <= i <= |events| ensures MayShow(events[i..], budget) <==> cut <= i {
      if cut <= i { MayShowShorter(events, cut, i, budget); }
      if i < cut && MayShow(events[i..], budget) { MayShowShorter(events, i, cut - 1, budget); }
    }
  }

  lemma NewestFirstOfOneMore(messages: seq<Message>, k: nat)
    requires k < |messages|
    ensures NewestFirst(messages[k..]) == NewestFirst(messages[k + 1..]) + Reversed(messages[k].images)
  {
    assert messages[k..][1..] == messages[k + 1..];
  }

  method Pictures(shown: seq<Message>, limit: int) returns (pictures: set<string>)
    ensures pictures == Firsts(NewestFirst(shown), limit)
  {
    hide Firsts, NewestFirst, Reversed;
    pictures := {};
    var index := |shown| - 1;
    NoPictures(shown, limit);
    while index >= 0 && |pictures| < limit
      invariant -1 <= index < |shown|
      invariant pictures == Firsts(NewestFirst(shown[index + 1..]), limit)
    {
      NewestFirstOfOneMore(shown, index);
      pictures := PicturesOf(NewestFirst(shown[index + 1..]), Reversed(shown[index].images), pictures, limit);
      index := index - 1;
    }
    if index >= 0 {
      FirstsOfNewer(shown, index + 1, limit);
    } else {
      assert shown[0..] == shown;
    }
  }

  lemma NoPictures(shown: seq<Message>, limit: int)
    ensures Firsts(NewestFirst(shown[|shown|..]), limit) == {}
  {
  }

  lemma TakeOneMore(newer: seq<string>, images: seq<string>, i: nat, limit: int)
    requires i < |images|
    ensures var before := Firsts(newer + images[..i], limit);
            && Firsts(newer + images[..i + 1], limit) == (if |before| >= limit then before else before + {images[i]})
            && (|before| >= limit ==> Firsts(newer + images, limit) == before)
  {
    hide Firsts;
    assert newer + images[..i + 1] == (newer + images[..i]) + [images[i]];
    FirstsOfOneMore(newer + images[..i], images[i], limit);
    if |Firsts(newer + images[..i], limit)| >= limit {
      assert newer + images == (newer + images[..i]) + images[i..];
      FirstsOnceFull(newer + images[..i], images[i..], limit);
    }
  }

  lemma TakeNoneOrAll(newer: seq<string>, images: seq<string>)
    ensures newer + images[..0] == newer && newer + images[..|images|] == newer + images
  {
  }

  /** Adds the images of one message, given those of the newer ones. */
  method PicturesOf(ghost newer: seq<string>, images: seq<string>, before: set<string>, limit: int) returns (pictures: set<string>)
    requires before == Firsts(newer, limit)
    ensures pictures == Firsts(newer + images, limit)
  {
    hide Firsts;
    pictures := before;
    var i := 0;
    TakeNoneOrAll(newer, images);
    while i < |images|
      invariant i <= |images| && pictures == Firsts(newer + images[..i], limit)
    {
      TakeOneMore(newer, images, i, limit);
      if |pictures| >= limit { return; }
      pictures := pictures + {images[i]};
      i := i + 1;
    }
  }
}
