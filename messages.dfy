/**
 * The `Messages` accumulator: status messages are added during a request and
 * rendered, joined by commas, when the page is built. Listeners on its
 * `collect` event run just before the join and may add messages of their own;
 * here what they add is the `collected` parameter of `Render`.
 */
module Messages {
  import opened Strings

  /** What `render` returns for this list of messages: `messages.join()`, whose separator is `,`. */
  function Rendered(messages: seq<string>): (html: string)
    ensures messages == [] ==> html == ""
    ensures |messages| == 1 ==> html == messages[0]
    ensures |messages| > 1 ==> StartsWith(html, messages[0] + ",")
  {
    Join(messages, ",")
  }

  /** Rendering one more message appends a comma (unless it is the first) and that message. */
  lemma RenderedAppend(messages: seq<string>, message: string)
    ensures Rendered(messages + [message]) ==
            if |messages| == 0 then message else Rendered(messages) + "," + message
  {
    JoinAppend(messages, message, ",");
  }

  /** Rendering extends: the rendering of a longer list starts with that of its prefix. */
  lemma {:induction false} RenderedExtends(messages: seq<string>, more: seq<string>)
    requires |messages| > 0
    ensures StartsWith(Rendered(messages + more), Rendered(messages))
    decreases |more|
  {
    if |more| == 0 {
      assert messages + more == messages;
    } else {
      var init := more[..|more| - 1];
      assert messages + more == (messages + init) + [more[|more| - 1]];
      RenderedExtends(messages, init);
      RenderedAppend(messages + init, more[|more| - 1]);
      var p, q := Rendered(messages), Rendered(messages + init);
      assert Rendered(messages + more) == q + ("," + more[|more| - 1]);
      assert (q + ("," + more[|more| - 1]))[..|p|] == q[..|p|];
    }
  }

  /** Messages without commas can be read back from the rendering, in insertion order. */
  lemma RenderedSplits(messages: seq<string>)
    requires |messages| > 0
    requires forall i :: 0 <= i < |messages| ==> ',' !in messages[i]
    ensures Split(Rendered(messages), ',') == messages
  {
    SplitJoin(messages, ',');
  }

  /** The message list of one page build. */
  class Messages {
    var messages: seq<string>

    /** `new Messages()`: starts out empty. */
    constructor ()
      ensures messages == []
    {
      messages := [];
    }

    /** `reset()`: drops every message, whatever was there. */
    method Reset()
      modifies this
      ensures messages == []
    {
      messages := [];
    }

    /** `add(message)`: the message goes at the end; earlier ones stay, in order. */
    method Add(message: string)
      modifies this
      ensures messages == old(messages) + [message]
      ensures |messages| == |old(messages)| + 1 && messages[|messages| - 1] == message
      ensures messages[..|old(messages)|] == old(messages)
    {
      messages := messages + [message];
    }

    /**
     * `render(req, res)`: the `collect` listeners add `collected`, then every
     * message, the new ones last, is joined by commas. The list is not cleared.
     */
    method Render(collected: seq<string>) returns (html: string)
      modifies this
      ensures messages == old(messages) + collected
      ensures html == Rendered(old(messages) + collected)
      ensures |old(messages)| > 0 ==> StartsWith(html, Rendered(old(messages)))
    {
      var i := 0;
      while i < |collected|
        invariant 0 <= i <= |collected|
        invariant messages == old(messages) + collected[..i]
      {
        messages := messages + [collected[i]];
        i := i + 1;
      }
      assert collected[..i] == collected;
      html := Join(messages, ",");
      if |old(messages)| > 0 {
        RenderedExtends(old(messages), collected);
      }
    }
  }

  /**
   * A page build: add two messages, render with no listener additions, render
   * again. Both renderings are the two messages joined by a comma, and a reset
   * afterwards leaves nothing to render.
   */
  method RenderTwice(first: string, second: string) returns (once: string, twice: string, afterReset: string)
    ensures once == twice == first + "," + second
    ensures afterReset == ""
  {
    var m := new Messages();
    m.Add(first);
    m.Add(second);
    assert m.messages == [first] + [second];
    RenderedAppend([first], second);
    assert Rendered([first]) == first;
    once := m.Render([]);
    assert m.messages == [first] + [second];
    twice := m.Render([]);
    m.Reset();
    var none: seq<string> := [];
    assert none + none == none;
    afterReset := m.Render(none);
  }

}
