/**
 The bytes the service analyses: the source path repeated end to end and cut off at a fixed length.
 */
module SyntheticData {
  import opened Backups

  /** How much of the repeated path the worker looks at, and the analyze endpoint. */
  const WORKER_BYTES := 8192
  const ANALYZE_BYTES := 4096

  /** Bytes of backup that one byte of synthetic data stands for. */
  const SIZE_FACTOR := 128

  /**
   `path.bytes().cycle().take(n)`: the bytes of the path, started over whenever they run out, until `n`
   have been taken. An empty path yields nothing, whatever `n`.
   */
  function Cycled(path: seq<byte>, n: nat): (data: seq<byte>)
    ensures |data| == if path == [] then 0 else n
    decreases n
  {
    if path == [] then []
    else if n < |path| then path[..n]
    else path + Cycled(path, n - |path|)
  }

  /** The size the worker reports for a job. */
  function SimulatedSize(path: seq<byte>): nat {
    |Cycled(path, WORKER_BYTES)| * SIZE_FACTOR
  }
}
