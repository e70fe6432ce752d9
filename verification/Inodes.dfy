/** Inode numbers: the kernel may give a new file any number that is not in use. */
module Inodes {
  type Ino = nat

  /** Some number that is not in use; any of them may come out. */
  method Fresh(used: set<Ino>) returns (ino: Ino)
    ensures ino !in used
  {
    ghost var bound := Bound(used);
    ino := *;
    while ino in used
      decreases bound - ino
    {
      ino := ino + 1;
    }
  }

  ghost function Bound(used: set<Ino>): (b: Ino)
    ensures forall i :: i in used ==> i < b
  {
    if used == {} then 0
    else
      var x :| x in used;
      var b := Bound(used - {x});
      assert used == (used - {x}) + {x};
      if x < b then b else x + 1
  }
}
