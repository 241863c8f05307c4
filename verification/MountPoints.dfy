/** Mount points: mounts on one path stack, each can go stale, and the two routines that
    look at a path before mounting on it and clean it up. */
module MountPoints {

  datatype Kind = Share | Loop | Bind

  datatype Mount = Mount(kind: Kind, stale: bool)

  /** The mounts on one path, the last one on top. */
  type Stack = seq<Mount>

  function Pop(s: Stack): Stack {
    if s == [] then s else s[..|s| - 1]
  }

  function Staled(stack: Stack, i: nat): Stack
    requires i < |stack|
  {
    stack[i := stack[i].(stale := true)]
  }

  predicate Good(s: Stack) {
    s != [] && !s[|s| - 1].stale
  }

  /** ensureMountPoint: every foreign call in it can fail unless the node is
      `reliable`, and a probe that finds a corrupted directory is a probe of a stale
      mount. */
  method EnsureMountPoint(stack: Stack, shouldUnmount: bool, reliable: bool) returns (after: Stack, mounted: bool, err: bool)
    ensures !shouldUnmount ==> after == stack
    ensures Good(stack) ==> after == stack && (mounted || err)
    ensures !err && mounted ==> Good(stack)
    ensures !err && !mounted ==> after == Pop(stack) && (stack != [] ==> shouldUnmount && !Good(stack))
    ensures err ==> after == stack
    ensures reliable ==> (err <==> stack != [] && !Good(stack) && !shouldUnmount)
  {
    after := stack;
    var probed: bool, listed: bool := *, *;
    if (!probed || !listed) && !reliable {
      return stack, false, true;
    }
    if stack != [] {
      if !stack[|stack| - 1].stale {            // the directory can be read
        return stack, true, false;
      }
      var unmounted: bool := *;
      if shouldUnmount && (unmounted || reliable) {
        return Pop(stack), false, false;
      }
      return stack, true, true;
    }
    var made: bool := *;
    return stack, false, !made && !reliable;
  }

  /** CleanupMountPoint: one unmount, and success only when nothing is left. */
  method CleanupMountPoint(stack: Stack, reliable: bool) returns (after: Stack, ok: bool)
    ensures ok ==> after == [] && |stack| <= 1
    ensures after == stack || after == Pop(stack)
    ensures stack == [] ==> after == []
    ensures reliable ==> after == Pop(stack) && (ok <==> |stack| <= 1)
  {
    after := stack;
    var checked: bool, unmounted: bool, removed: bool := *, *, *;
    if !checked && !reliable {
      return stack, false;
    }
    if stack != [] {
      if !unmounted && !reliable {
        return stack, false;
      }
      after := Pop(stack);
    }
    ok := after == [] && (removed || reliable);
  }
}
