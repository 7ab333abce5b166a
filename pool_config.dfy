/** The database pool settings derived from the number of CPUs. */
module DbPoolConfig {
  import opened Common

  datatype DatabasePoolConfig = DatabasePoolConfig(maxOpenConns: int, maxIdleConns: int,
                                                   connMaxLifetime: int, connMaxIdleTime: int)

  /** Four connections per CPU, kept between 20 and 100; a third of those
      idle, at least 5; ten-minute lifetime and two-minute idle time. */
  function GetOptimalPoolConfig(numCPU: int): (c: DatabasePoolConfig)
    ensures c.maxOpenConns == MinInt(MaxInt(4 * numCPU, 20), 100)
    ensures c.maxIdleConns == MaxInt(c.maxOpenConns / 3, 5)
    ensures c.connMaxLifetime == 10 * Minute && c.connMaxIdleTime == 2 * Minute
  {
    var maxOpen := if numCPU * 4 < 20 then 20 else if numCPU * 4 > 100 then 100 else numCPU * 4;
    var maxIdle := if maxOpen / 3 < 5 then 5 else maxOpen / 3;
    DatabasePoolConfig(maxOpen, maxIdle, 10 * Minute, 2 * Minute)
  }

  /** The pool never keeps more idle connections than it may open, and the
      limits stay within their bounds whatever the CPU count. */
  lemma PoolLimitsConsistent(numCPU: int)
    ensures var c := GetOptimalPoolConfig(numCPU);
      20 <= c.maxOpenConns <= 100 && 6 <= c.maxIdleConns <= 33 && c.maxIdleConns < c.maxOpenConns
  {
  }

  /** More CPUs never mean a smaller pool. */
  lemma PoolGrowsWithCPUs(a: int, b: int)
    requires a <= b
    ensures GetOptimalPoolConfig(a).maxOpenConns <= GetOptimalPoolConfig(b).maxOpenConns
    ensures GetOptimalPoolConfig(a).maxIdleConns <= GetOptimalPoolConfig(b).maxIdleConns
  {
  }
}
