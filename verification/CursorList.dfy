/** A linked list seen as the sequence of its members, with cursors into it.

    A cursor is a link to a member, or `None` for the end of the list.  Unlike an
    index it is unaffected by what happens to the other members, which is why every
    operation below says where the cursor stands afterwards: its position `Pos`.
  */
module CursorList {

  datatype Option<+T> = None | Some(value: T)

  ghost predicate Distinct<T>(l: seq<T>) {
    forall i, j :: 0 <= i < j < |l| ==> l[i] != l[j]
  }

  ghost predicate ValidCursor<T>(l: seq<T>, cur: Option<T>) {
    cur.Some? ==> cur.value in l
  }

  /** The first position of `c`, or the length of the list when `c` is not in it. */
  function Index<T(==)>(l: seq<T>, c: T): (i: nat)
    ensures i <= |l|
    ensures i < |l| ==> l[i] == c
    ensures i < |l| <==> c in l
  {
    if l == [] then 0 else if l[0] == c then 0 else 1 + Index(l[1..], c)
  }

  /** The position a cursor stands at; the end of the list is position `|l|`. */
  function Pos<T(==)>(l: seq<T>, cur: Option<T>): nat {
    if cur.None? then |l| else Index(l, cur.value)
  }

  /** The cursor standing at position `i`. */
  function At<T>(l: seq<T>, i: nat): Option<T> {
    if i < |l| then Some(l[i]) else None
  }

  function Next<T(==)>(l: seq<T>, c: T): Option<T> {
    At(l, Index(l, c) + 1)
  }

  function Erase<T(==)>(l: seq<T>, c: T): seq<T> {
    var i := Index(l, c);
    if i < |l| then l[..i] + l[i + 1..] else l
  }

  /** What a cursor becomes when it is advanced off a member about to be unlinked. */
  function Repair<T(==)>(l: seq<T>, cur: Option<T>, c: T): Option<T> {
    if cur == Some(c) then Next(l, c) else cur
  }

  lemma IndexOfElement<T>(l: seq<T>, i: nat)
    requires Distinct(l) && i < |l|
    ensures Index(l, l[i]) == i
  {
    assert l[Index(l, l[i])] == l[i];
  }

  lemma PosOfAt<T>(l: seq<T>, i: nat)
    requires Distinct(l) && i <= |l|
    ensures ValidCursor(l, At(l, i)) && Pos(l, At(l, i)) == i
  {
    if i < |l| { IndexOfElement(l, i); }
  }

  lemma AtOfPos<T>(l: seq<T>, cur: Option<T>)
    requires ValidCursor(l, cur)
    ensures At(l, Pos(l, cur)) == cur
  {}

  lemma EraseMembers<T>(l: seq<T>, c: T)
    requires Distinct(l) && c in l
    ensures Distinct(Erase(l, c)) && c !in Erase(l, c) && |Erase(l, c)| == |l| - 1
    ensures forall x :: x in l && x != c <==> x in Erase(l, c)
  {
    var i, l' := Index(l, c), Erase(l, c);
    forall j | 0 <= j < |l'| ensures l'[j] == l[if j < i then j else j + 1] {}
    forall j | 0 <= j < |l| && j != i ensures l[j] == l'[if j < i then j else j - 1] {}
  }

  /** Unlinking `c` keeps a repaired cursor in the list, one place further left exactly
      when `c` stood before it. */
  lemma ErasePos<T>(l: seq<T>, cur: Option<T>, c: T)
    requires Distinct(l) && c in l && ValidCursor(l, cur)
    ensures var l', cur' := Erase(l, c), Repair(l, cur, c);
            && ValidCursor(l', cur')
            && Pos(l', cur') == if Index(l, c) < Pos(l, cur) then Pos(l, cur) - 1 else Pos(l, cur)
  {
    EraseMembers(l, c);
    var l', cur' := Erase(l, c), Repair(l, cur, c);
    var i, p := Index(l, c), Pos(l, cur);
    AtOfPos(l, cur);
    var p' := if i < p then p - 1 else p;
    assert At(l', p') == cur';
    PosOfAt(l', p');
  }

  lemma PushFrontPos<T>(l: seq<T>, cur: Option<T>, c: T)
    requires Distinct(l) && c !in l && ValidCursor(l, cur)
    ensures Distinct([c] + l) && ValidCursor([c] + l, cur)
    ensures Pos([c] + l, cur) == Pos(l, cur) + 1
  {
    AtOfPos(l, cur);
    assert At([c] + l, Pos(l, cur) + 1) == cur;
    PosOfAt([c] + l, Pos(l, cur) + 1);
  }

  lemma PushBackPos<T>(l: seq<T>, cur: Option<T>, c: T)
    requires Distinct(l) && c !in l && ValidCursor(l, cur)
    ensures Distinct(l + [c]) && ValidCursor(l + [c], cur)
    ensures Pos(l + [c], cur) == if cur.None? then |l| + 1 else Pos(l, cur)
  {
    AtOfPos(l, cur);
    if cur.Some? {
      assert At(l + [c], Pos(l, cur)) == cur;
      PosOfAt(l + [c], Pos(l, cur));
    }
  }

  /** Moving a cursor past `c` leaves `c` and what stood before it behind. */
  lemma NextPos<T>(l: seq<T>, c: T)
    requires Distinct(l) && c in l
    ensures ValidCursor(l, Next(l, c)) && Pos(l, Next(l, c)) == Index(l, c) + 1
    ensures l[..Index(l, c) + 1] == l[..Index(l, c)] + [c]
  {
    PosOfAt(l, Index(l, c) + 1);
  }

  /** A cursor that was moved past `c` survives the unlinking of `c`. */
  lemma NextAfterErase<T>(l: seq<T>, c: T)
    requires Distinct(l) && c in l
    ensures var l', it := Erase(l, c), Next(l, c);
            ValidCursor(l', it) && Pos(l', it) == Index(l, c) && l'[..Index(l, c)] == l[..Index(l, c)]
  {
    NextPos(l, c);
    ErasePos(l, Next(l, c), c);
    EraseMembers(l, c);
  }
}
