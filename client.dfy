/**
 * A stand-in for the Telegram client library that the bot manager drives. It
 * records every call it receives, with the description it answered, and
 * answers with canned descriptions in order ("" once they run out). What the
 * real library does with a call (network requests, update processing) is not
 * part of this model.
 */
module TelegramClient {
  import opened Php

  /** The client operations the bot manager invokes. */
  datatype Call =
    | UnsetWebhook
    | SetWebhook(url: string, certificate: Value)
    | HandleWebhook
    | GetUpdates

  datatype Event = Event(call: Call, description: string)

  /** The calls of a trace, in order. */
  function CallsOf(trace: seq<Event>): (calls: seq<Call>)
    ensures |calls| == |trace|
    ensures forall i :: 0 <= i < |trace| ==> calls[i] == trace[i].call
  {
    seq(|trace|, i requires 0 <= i < |trace| => trace[i].call)
  }

  /** The `k`-th canned description, or "" past the end. */
  function ReplyAt(script: seq<string>, k: nat): (d: string)
    ensures k < |script| ==> d == script[k]
    ensures k >= |script| ==> d == ""
  {
    if k < |script| then script[k] else ""
  }

  /** `trace` extends `before` by exactly the calls `calls`, in order. */
  ghost predicate Appended(before: seq<Event>, after: seq<Event>, calls: seq<Call>)
  {
    |after| == |before| + |calls| && after[..|before|] == before && CallsOf(after[|before|..]) == calls
  }

  lemma AppendedNothing(t: seq<Event>)
    ensures Appended(t, t, [])
  {
    assert t[..|t|] == t;
  }

  lemma AppendedFromEmpty(t: seq<Event>, calls: seq<Call>)
    requires Appended([], t, calls)
    ensures CallsOf(t) == calls
  {
    assert t[0..] == t;
  }

  lemma AppendedTrans(a: seq<Event>, b: seq<Event>, c: seq<Event>, x: seq<Call>, y: seq<Call>)
    requires Appended(a, b, x) && Appended(b, c, y)
    ensures Appended(a, c, x + y)
  {
    assert c[..|a|] == b[..|a|];
    assert c[|a|..] == b[|a|..] + c[|b|..];
  }

  class Client {
    /** The constructor arguments of `new Telegram($api_key, $bot_username)`. */
    const apiKey: Value
    const botUsername: Value
    /** The descriptions the remote side will give, in order. */
    var replies: seq<string>
    /** Every call received so far, with the description it answered. */
    ghost var trace: seq<Event>
    /** All the descriptions the remote side was set up to give. */
    ghost const script: seq<string>

    /** The `k`-th call was answered with the `k`-th canned description. */
    ghost predicate Valid()
      reads this
    {
      && (if |trace| < |script| then replies == script[|trace|..] else replies == [])
      && forall k :: 0 <= k < |trace| ==> trace[k].description == ReplyAt(script, k)
    }

    constructor (apiKey: Value, botUsername: Value, replies: seq<string>)
      ensures this.apiKey == apiKey && this.botUsername == botUsername
      ensures this.replies == replies && trace == []
      ensures this.script == replies && Valid()
    {
      this.script := replies;
      this.apiKey := apiKey;
      this.botUsername := botUsername;
      this.replies := replies;
      trace := [];
    }

    /** Record `call` and answer with the next canned description. */
    method Answer(call: Call) returns (description: string)
      requires Valid()
      modifies this
      ensures Valid()
      ensures description == ReplyAt(script, |old(trace)|)
      ensures replies == if old(replies) == [] then [] else old(replies)[1..]
      ensures trace == old(trace) + [Event(call, description)]
    {
      if replies == [] {
        description := "";
      } else {
        description := replies[0];
        replies := replies[1..];
      }
      trace := trace + [Event(call, description)];
    }

    /** `unsetWebHook()->getDescription()` */
    method UnsetWebHook() returns (description: string)
      requires Valid()
      modifies this
      ensures Valid()
      ensures description == ReplyAt(script, |old(trace)|)
      ensures replies == if old(replies) == [] then [] else old(replies)[1..]
      ensures trace == old(trace) + [Event(UnsetWebhook, description)]
      ensures Appended(old(trace), trace, [UnsetWebhook])
    {
      description := Answer(UnsetWebhook);
      assert trace[|old(trace)|..] == [trace[|old(trace)|]];
    }

    /** `setWebHook($url, $certificate)->getDescription()` */
    method SetWebHook(url: string, certificate: Value) returns (description: string)
      requires Valid()
      modifies this
      ensures Valid()
      ensures description == ReplyAt(script, |old(trace)|)
      ensures replies == if old(replies) == [] then [] else old(replies)[1..]
      ensures trace == old(trace) + [Event(SetWebhook(url, certificate), description)]
      ensures Appended(old(trace), trace, [SetWebhook(url, certificate)])
    {
      description := Answer(SetWebhook(url, certificate));
      assert trace[|old(trace)|..] == [trace[|old(trace)|]];
    }

    /** `handle()`: process the incoming webhook request. */
    method Handle()
      requires Valid()
      modifies this
      ensures Valid()
      ensures replies == if old(replies) == [] then [] else old(replies)[1..]
      ensures Appended(old(trace), trace, [HandleWebhook])
    {
      var _ := Answer(HandleWebhook);
      assert trace[|old(trace)|..] == [trace[|old(trace)|]];
    }

    /** `handleGetUpdates()`: fetch and process pending updates. */
    method HandleGetUpdates()
      requires Valid()
      modifies this
      ensures Valid()
      ensures replies == if old(replies) == [] then [] else old(replies)[1..]
      ensures Appended(old(trace), trace, [GetUpdates])
    {
      var _ := Answer(GetUpdates);
      assert trace[|old(trace)|..] == [trace[|old(trace)|]];
    }
  }
}
