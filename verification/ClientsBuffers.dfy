/** The buffer of connect requests in memory (main.c): the array clientsBuffer and
    the indices in and out, which go round it. */
module ClientsBuffers {
  import opened Sessions

  class ClientsBuffer {
    const clientsBuffer: array<Place>
    var inn: nat
    var out: nat
    ghost var enqueued: seq<Record>
    ghost var dequeued: seq<Record>
    ghost var overwritten: bool
    ghost var misread: bool

    ghost predicate Valid()
      reads this
    {
      inn < clientsBuffer.Length && out < clientsBuffer.Length
    }

    ghost function View(): Buffer
      reads this, clientsBuffer
    {
      Buffer(clientsBuffer[..], inn, out, enqueued, dequeued, overwritten, misread)
    }

    constructor (n: nat)
      requires n > 0
      ensures Valid() && fresh(clientsBuffer) && View() == Start(n, 0).buffer
    {
      clientsBuffer := new Place[n](_ => Unused);
      inn, out, enqueued, dequeued, overwritten, misread := 0, 0, [], [], false, false;
      new;
      assert clientsBuffer[..] == Start(n, 0).buffer.places;
    }

    /** What the host does with a request, between its two semaphores. */
    method Insert(newClient: Record)
      requires Valid()
      modifies this, clientsBuffer
      ensures Valid() && View() == PutIn(old(View()), newClient)
    {
      overwritten := overwritten || clientsBuffer[inn].Full?;
      clientsBuffer[inn] := Full(newClient);
      inn := inn + 1;
      if inn == clientsBuffer.Length {
        inn := 0;
      }
      enqueued := enqueued + [newClient];
    }

    /** What a worker does under the mutex: copies the request, frees it, goes on. */
    method Remove() returns (client: Record)
      requires Valid()
      modifies this, clientsBuffer
      ensures Valid() && client == NextRecord(old(View()))
      ensures View() == TakeOut(Looked(old(View())), client)
    {
      misread := misread || !clientsBuffer[out].Full?;
      client := if clientsBuffer[out].Full? then clientsBuffer[out].record else 0;
      clientsBuffer[out] := Freed;
      out := out + 1;
      if out == clientsBuffer.Length {
        out := 0;
      }
      dequeued := dequeued + [client];
    }
  }
}
