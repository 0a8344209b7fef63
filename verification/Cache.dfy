/**
 The shared FIFO of object names. Every method runs under the cache's mutex, so any interleaving
 of workers is a sequence of calls; the ghost history says what such a sequence can observe.
 */
module NameCache {

  class Cache {
    var items: seq<string>

    ghost var pushed: seq<string>  // every name ever pushed, oldest first
    ghost var popped: seq<string>  // every name ever handed out, oldest first

    /** First in, first out: the names handed out so far, then the cached ones, are the names pushed. */
    ghost predicate Valid()
      reads this
    {
      pushed == popped + items
    }

    constructor ()
      ensures Valid() && items == [] && pushed == []
    {
      items, pushed, popped := [], [], [];
    }

    method Pop() returns (name: string, ok: bool)
      requires Valid()
      modifies this
      ensures Valid() && pushed == old(pushed)
      ensures ok <==> old(items) != []
      ensures ok ==> name == old(items)[0] && items == old(items)[1..] && popped == old(popped) + [name]
      ensures !ok ==> name == "" && items == [] && popped == old(popped)
    {
      if |items| == 0 {
        return "", false;
      }
      name, ok := items[0], true;
      items, popped := items[1..], popped + [name];
    }

    method Push(name: string)
      requires Valid()
      modifies this
      ensures Valid() && items == old(items) + [name] && popped == old(popped) && pushed == old(pushed) + [name]
    {
      items, pushed := items + [name], pushed + [name];
    }

    method Len() returns (n: nat)
      requires Valid()
      ensures n == |pushed| - |popped|
    {
      n := |items|;
    }
  }
}
