/** The records that the Lighthouse, the ManagerServer and the Manager exchange. */
module Protocol {

  datatype Option<+T> = None | Some(value: T)

  /** One replica group as it announced itself to the Lighthouse. */
  datatype Member = Member(
    replicaId: string,
    address: string,
    storeAddress: string,
    step: int,
    worldSize: nat,
    shrinkOnly: bool,
    commitFailures: int)

  /** A quorum as the Lighthouse broadcasts it. */
  datatype Quorum = Quorum(quorumId: int, participants: seq<Member>)

  function Ids(ms: seq<Member>): (ids: seq<string>)
  {
    seq(|ms|, i requires 0 <= i < |ms| => ms[i].replicaId)
  }

  ghost predicate UniqueIds(ms: seq<Member>) {
    forall i, j :: 0 <= i < j < |ms| ==> ms[i].replicaId != ms[j].replicaId
  }

  ghost predicate HasId(ms: seq<Member>, id: string) {
    exists i :: 0 <= i < |ms| && ms[i].replicaId == id
  }

  lemma MemberHasId(ms: seq<Member>, m: Member)
    ensures m in ms ==> HasId(ms, m.replicaId)
  {
  }
}
