/** The intrusive circular list of list.h. A job and the list entry embedded in it are one object. */
module Ring {
  import opened Clock

  class Job {
    var next: Job?
    var prev: Job?
    var start: u64
    var priority: nat
    var group: nat
    /** Which call to AddJob listed this job last. */
    ghost var serial: nat

    constructor (start: u64, priority: nat, group: nat)
      ensures next == null && prev == null
      ensures this.start == start && this.priority == priority && this.group == group
    {
      next, prev := null, null;
      this.start, this.priority, this.group := start, priority, group;
      serial := 0;
    }
  }

  /** The i-th entry met when walking `next` from head through s; after the last element comes head again. */
  ghost function At(head: Job, s: seq<Job>, i: int): Job {
    if 0 < i <= |s| then s[i - 1] else head
  }

  ghost predicate Distinct(head: Job, s: seq<Job>) {
    && (forall i :: 0 <= i < |s| ==> s[i] != head)
    && (forall i, j :: 0 <= i < j < |s| ==> s[i] != s[j])
  }

  ghost predicate Within(s: seq<Job>, nodes: set<Job>) {
    forall i :: 0 <= i < |s| ==> s[i] in nodes
  }

  lemma InsertedIsDistinct(head: Job, s: seq<Job>, nodes: set<Job>, node: Job, k: nat)
    requires Distinct(head, s) && Within(s, nodes) && head in nodes && node !in nodes && k <= |s|
    ensures Distinct(head, s[..k] + [node] + s[k..]) && Within(s[..k] + [node] + s[k..], nodes + {node})
  {
    var t := s[..k] + [node] + s[k..];
    forall i | 0 <= i < |t| ensures t[i] == if i < k then s[i] else if i == k then node else s[i - 1] {}
  }

  lemma RemovedIsDistinct(head: Job, s: seq<Job>, nodes: set<Job>, node: Job, k: nat)
    requires Distinct(head, s) && Within(s, nodes) && head in nodes && k < |s| && s[k] == node
    ensures Distinct(head, s[..k] + s[k + 1..]) && Within(s[..k] + s[k + 1..], nodes - {node})
  {
    var t := s[..k] + s[k + 1..];
    forall i | 0 <= i < |t| ensures t[i] == if i < k then s[i] else s[i + 1] {}
  }

  /** `next` leads from head through s back to head, and `prev` the other way. */
  ghost predicate Linked(head: Job, s: seq<Job>)
    reads head, s
  {
    && head.next == At(head, s, 1) && head.prev == At(head, s, |s|)
    && (forall i {:trigger s[i].next} :: 0 <= i < |s| ==> s[i].next == At(head, s, i + 2))
    && (forall i {:trigger s[i].prev} :: 0 <= i < |s| ==> s[i].prev == At(head, s, i))
  }

  /** Writing node between two neighbours. */
  method SpliceIn(existing: Job, node: Job, ghost head: Job, ghost s: seq<Job>, ghost k: nat)
    requires Distinct(head, s) && Linked(head, s)
    requires k <= |s| && existing == At(head, s, k + 1) && node != head && node !in s
    modifies existing`prev, At(head, s, k)`next, node`next, node`prev
    ensures Linked(head, s[..k] + [node] + s[k..])
    ensures node.next == existing && node.prev == At(head, s, k) && existing.prev == node && At(head, s, k).next == node
  {
    node.prev := existing.prev;
    existing.prev.next := node;
    existing.prev := node;
    node.next := existing;
  }

  /** Joining the neighbours of node. */
  method SpliceOut(node: Job, ghost head: Job, ghost s: seq<Job>, ghost k: nat)
    requires Distinct(head, s) && Linked(head, s)
    requires k < |s| && node == s[k]
    modifies At(head, s, k + 2)`prev, At(head, s, k)`next, node`next, node`prev
    ensures Linked(head, s[..k] + s[k + 1..])
    ensures node.next == null && node.prev == null
    ensures At(head, s, k).next == At(head, s, k + 2) && At(head, s, k + 2).prev == At(head, s, k)
  {
    node.next.prev := node.prev;
    node.prev.next := node.next;
    node.next := null;
    node.prev := null;
    ghost var t := s[..k] + s[k + 1..];
    forall i | 0 <= i < |t| ensures t[i].next == At(head, t, i + 2) && t[i].prev == At(head, t, i) {
      var m := if i < k then i else i + 1;
      assert t[i] == s[m];
    }
  }

  /** A list head and what is linked behind it. */
  class List {
    const head: Job
    ghost var elems: seq<Job>
    ghost var nodes: set<Job>

    ghost predicate Valid()
      reads this, nodes
    {
      && head in nodes
      && Within(elems, nodes)
      && (forall j :: j in nodes ==> j.next != null && j.prev != null)
      && Distinct(head, elems) && Linked(head, elems)
    }

    /** usfstl_list_init */
    constructor ()
      ensures Valid() && elems == [] && fresh(nodes)
    {
      var h := new Job(0, 0, 0);
      head, elems, nodes := h, [], {h};
      new;
      head.next := head;
      head.prev := head;
    }

    /** usfstl_list_insert_before */
    method InsertBefore(existing: Job, node: Job, ghost k: nat)
      requires Valid() && node !in nodes
      requires k <= |elems| && existing == At(head, elems, k + 1)
      modifies this, nodes`next, nodes`prev, node`next, node`prev
      ensures Valid() && nodes == old(nodes) + {node}
      ensures elems == old(elems)[..k] + [node] + old(elems)[k..]
    {
      ghost var s := elems;
      InsertedIsDistinct(head, s, nodes, node, k);
      elems := s[..k] + [node] + s[k..];
      nodes := nodes + {node};
      SpliceIn(existing, node, head, s, k);
    }

    /** usfstl_list_append */
    method Append(node: Job)
      requires Valid() && node !in nodes
      modifies this, nodes`next, nodes`prev, node`next, node`prev
      ensures Valid() && nodes == old(nodes) + {node}
      ensures elems == old(elems) + [node]
    {
      InsertBefore(head, node, |elems|);
    }

    /** usfstl_next_item; from the head it is usfstl_list_first_item */
    method NextItem(job: Job, ghost k: nat) returns (r: Job?)
      requires Valid() && k <= |elems| && job == At(head, elems, k)
      ensures r == if k < |elems| then elems[k] else null
    {
      r := if job.next != head then job.next else null;
    }
  }

  /** usfstl_list_item_remove: the list an entry is on is known to the proof only. */
  method RemoveItem(node: Job, ghost l: List, ghost k: nat)
    requires l.Valid() && k < |l.elems| && l.elems[k] == node
    modifies l, l.nodes`next, l.nodes`prev
    ensures l.Valid() && l.nodes == old(l.nodes) - {node}
    ensures l.elems == old(l.elems)[..k] + old(l.elems)[k + 1..]
    ensures node.next == null && node.prev == null
  {
    ghost var s := l.elems;
    RemovedIsDistinct(l.head, s, l.nodes, node, k);
    l.elems := s[..k] + s[k + 1..];
    l.nodes := l.nodes - {node};
    SpliceOut(node, l.head, s, k);
  }
}
