/** What select and poll share: which descriptors are synthetic, and what stands behind them. */
module Translation {

  const MAX_SWAPS: nat := 64

  /**
    synth gives, for each synthetic descriptor, the pollable descriptor its owner offers, or a
    negative number. opath is the set of O_PATH descriptors; every synthetic one is among them.
  */
  datatype World = World(synth: map<int, int>, opath: set<int>)

  /** The descriptor to use instead of fd, or -1 when fd is to be used as it is. */
  function Translate(w: World, fd: int): int {
    if fd in w.synth && w.synth[fd] >= 0 && w.synth[fd] != fd then w.synth[fd] else -1
  }

  /** Synthetic descriptors are O_PATH, and no backing is itself synthetic. */
  ghost predicate WorldOk(w: World) {
    && w.synth.Keys <= w.opath
    && (forall fd :: fd in w.synth && Translate(w, fd) >= 0 ==> Translate(w, fd) !in w.synth)
  }
}
