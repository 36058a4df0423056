/** Messages held by the server (src/mlm_msg.c) and their reference counters. */
module Messages {

  /** A message held by the server; `id` stands for its address, `size` for zmsg_content_size. */
  datatype Message = Message(id: nat, sender: string, address: string, subject: string, size: nat)

  /** The counters of all messages. A message is allocated exactly while its counter is positive. */
  class MsgHeap {
    var refs: multiset<Message>
    var freed: seq<Message>

    constructor ()
      ensures refs == multiset{} && freed == []
    {
      refs, freed := multiset{}, [];
    }

    /** mlm_msg_new: a fresh message starts with one reference. */
    method New(m: Message)
      requires m !in refs
      modifies this
      ensures refs == old(refs) + multiset{m} && freed == old(freed)
    {
      refs := refs[m := 1];
    }

    /** mlm_msg_link. */
    method Link(m: Message)
      requires m in refs
      modifies this
      ensures refs == old(refs) + multiset{m} && freed == old(freed)
    {
      refs := refs[m := refs[m] + 1];
    }

    /** mlm_msg_destroy: frees the message whatever its counter says. */
    method Destroy(m: Message)
      requires m in refs
      modifies this
      ensures refs == old(refs)[m := 0] && freed == old(freed) + [m]
    {
      refs := refs[m := 0];
      freed := freed + [m];
    }

    /** mlm_msg_unlink: the message is destroyed when, and only when, the last reference goes. */
    method Unlink(m: Message)
      requires m in refs
      modifies this
      ensures refs == old(refs) - multiset{m}
      ensures freed == old(freed) + if m in refs then [] else [m]
    {
      if refs[m] == 1 {
        Destroy(m);
      } else {
        refs := refs[m := refs[m] - 1];
      }
    }
  }
}
