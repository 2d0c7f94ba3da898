/**
  The fine-tuning exporter: one JSONL record per stored conversation with at least two
  messages, in creation order. The query result is a sequence; writing the stream is
  appending to the sequence of emitted records.
*/
module ExportDataset {
  import opened Wrappers
  import opened ChatTypes
  import opened Memory

  /** A conversation as the export query loads it: its owner (if any) and its messages, oldest first. */
  datatype ExportSource = ExportSource(
    id: string,
    ownerClientId: Option<Option<string>>,
    title: Option<string>,
    summary: Option<string>,
    messages: seq<StoredMessage>)

  /** One exported message. */
  datatype ExportedMessage = ExportedMessage(role: string, content: string, source: Option<string>, createdAt: int)

  /** One JSONL record. */
  datatype ExportRecord = ExportRecord(
    conversationId: string,
    userClientId: Option<string>,
    title: Option<string>,
    sourceSummary: Option<string>,
    messages: seq<ExportedMessage>)

  const MinMessages: nat := 2

  /** A stored message as exported: `user` exactly for `USER`, content, source and time copied. */
  function ExportMessage(m: StoredMessage): (r: ExportedMessage)
    ensures r.role == "user" <==> m.role == USER
    ensures r.role == "user" || r.role == "assistant"
    ensures r.content == m.content && r.source == m.source && r.createdAt == m.createdAt
  {
    ExportedMessage(if m.role == USER then "user" else "assistant", m.content, m.source, m.createdAt)
  }

  /** `conv.user?.clientId ?? null`: absent when there is no owner or the owner has no client id. */
  function OwnerClientId(owner: Option<Option<string>>): (r: Option<string>)
    ensures r.Some? <==> owner.Some? && owner.value.Some?
    ensures r.Some? ==> r.value == owner.value.value
  {
    match owner
    case None => None
    case Some(c) => c
  }

  /** The record for one conversation: none when it has no messages or just one; otherwise the
      messages in stored order and number, with the metadata copied. */
  function RecordOf(conv: ExportSource): (r: Option<ExportRecord>)
    ensures r.None? <==> |conv.messages| < MinMessages
    ensures r.Some? ==>
      && r.value.conversationId == conv.id
      && r.value.userClientId == OwnerClientId(conv.ownerClientId)
      && r.value.title == conv.title
      && r.value.sourceSummary == conv.summary
      && |r.value.messages| == |conv.messages|
      && forall i :: 0 <= i < |conv.messages| ==> r.value.messages[i] == ExportMessage(conv.messages[i])
  {
    if |conv.messages| == 0 then None
    else
      var chatMessages := seq(|conv.messages|, i requires 0 <= i < |conv.messages| => ExportMessage(conv.messages[i]));
      if |chatMessages| < MinMessages then None
      else Some(ExportRecord(conv.id, OwnerClientId(conv.ownerClientId), conv.title, conv.summary, chatMessages))
  }

  /** The records the whole export emits, in conversation order. */
  function Records(convs: seq<ExportSource>): seq<ExportRecord>
  {
    if convs == [] then []
    else
      var last := convs[|convs| - 1];
      Records(convs[..|convs| - 1]) + (if RecordOf(last).Some? then [RecordOf(last).value] else [])
  }

  /** The conversations with enough messages to be exported. */
  function Exportable(convs: seq<ExportSource>): nat
  {
    if convs == [] then 0
    else Exportable(convs[..|convs| - 1]) + (if |convs[|convs| - 1].messages| >= MinMessages then 1 else 0)
  }

  /** The export writes one record per conversation with at least two messages, and each record
      came from such a conversation with its messages in order. */
  lemma {:induction false} RecordsFaithful(convs: seq<ExportSource>)
    ensures |Records(convs)| == Exportable(convs)
    ensures forall k :: 0 <= k < |Records(convs)| ==>
      && |Records(convs)[k].messages| >= MinMessages
      && exists j :: 0 <= j < |convs| && RecordOf(convs[j]) == Some(Records(convs)[k])
  {
    if convs != [] {
      var init := convs[..|convs| - 1];
      var last := convs[|convs| - 1];
      RecordsFaithful(init);
      var r := Records(convs);
      var ri := Records(init);
      assert r == ri + (if RecordOf(last).Some? then [RecordOf(last).value] else []);
      forall k | 0 <= k < |r|
        ensures |r[k].messages| >= MinMessages
        ensures exists j :: 0 <= j < |convs| && RecordOf(convs[j]) == Some(r[k])
      {
        if k < |ri| {
          assert r[k] == ri[k];
          var j :| 0 <= j < |init| && RecordOf(init[j]) == Some(ri[k]);
          assert init[j] == convs[j];
        } else {
          assert r[k] == RecordOf(last).value;
          assert convs[|convs| - 1] == last;
        }
      }
    }
  }

  /** The exporter's loop: skips short conversations, emits one record for each other, and counts. */
  method Export(convs: seq<ExportSource>) returns (emitted: seq<ExportRecord>, written: nat)
    ensures emitted == Records(convs)
    ensures written == |emitted|
    ensures written == Exportable(convs)
  {
    emitted := [];
    written := 0;
    var i := 0;
    while i < |convs|
      invariant 0 <= i <= |convs|
      invariant emitted == Records(convs[..i])
      invariant written == |emitted|
    {
      var conv := convs[i];
      assert convs[..i + 1][..i] == convs[..i];
      if |conv.messages| == 0 {
        i := i + 1;
        continue;
      }
      var chatMessages := seq(|conv.messages|, k requires 0 <= k < |conv.messages| => ExportMessage(conv.messages[k]));
      if |chatMessages| < MinMessages {
        i := i + 1;
        continue;
      }
      var record := ExportRecord(conv.id, OwnerClientId(conv.ownerClientId), conv.title, conv.summary, chatMessages);
      emitted := emitted + [record];
      written := written + 1;
      i := i + 1;
    }
    assert convs[..|convs|] == convs;
    RecordsFaithful(convs);
  }
}
