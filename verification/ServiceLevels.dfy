/** The three delivery levels and their codes. */
module ServiceLevels {
  import opened Wrappers
  import opened Bytes

  datatype ServiceLevel = QoS0 | QoS1 | QoS2

  function Code(q: ServiceLevel): byte {
    match q case QoS0 => 0 case QoS1 => 1 case QoS2 => 2
  }

  function TryFrom(b: byte): Option<ServiceLevel> {
    if b == 0 then Some(QoS0) else if b == 1 then Some(QoS1) else if b == 2 then Some(QoS2) else None
  }

  /** The codes are exactly the bytes that name a level, each its own. */
  lemma {:induction false} CodesAreNames(b: byte)
    ensures TryFrom(b).Some? <==> b <= 2
    ensures TryFrom(b).Some? ==> Code(TryFrom(b).value) == b
    ensures forall q :: TryFrom(Code(q)) == Some(q)
    ensures Code(QoS0) < Code(QoS1) < Code(QoS2)
  {
  }
}
