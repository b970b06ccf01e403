/** Rows of the chat_conversations table. */
module Conversations {
  import opened Options

  /**
   * One chat message. from and to are "ROLE_id" keys; createdAt stands for
   * the created_at timestamp, of which only its order matters here.
   */
  datatype Message = Message(id: nat, threadId: nat, from: string, to: string, body: string, createdAt: int)

  /** The primary key is unique: two rows with the same id are the same row. */
  predicate UniqueIds(s: seq<Message>) {
    forall i, j :: 0 <= i < |s| && 0 <= j < |s| && s[i].id == s[j].id ==> s[i] == s[j]
  }

  /** The row stored under id, as ChatConversation::find returns it, or none. */
  function FindById(s: seq<Message>, id: nat): (r: Option<Message>)
    ensures r.Some? ==> r.value in s && r.value.id == id
    ensures r.None? <==> forall i :: 0 <= i < |s| ==> s[i].id != id
  {
    if |s| == 0 then None
    else if s[0].id == id then Some(s[0])
    else
      var r := FindById(s[1..], id);
      assert forall i :: 1 <= i < |s| ==> s[i] == s[1..][i - 1];
      r
  }

  /** With unique ids, find by a row's id returns that very row. */
  lemma FindStored(s: seq<Message>, i: nat)
    requires UniqueIds(s)
    requires i < |s|
    ensures FindById(s, s[i].id) == Some(s[i])
  {
  }
}
