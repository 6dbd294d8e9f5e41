/** The thread message shared by every transcript reader (history.go, histMsg). */
module Messages {

  datatype HistMsg = HistMsg(
    role: string,
    content: string,
    ts: int,
    stdout: string,
    stderr: string,
    turn: string,
    seqNo: int,
    id: string,
    kind: string,
    queued: bool,
    origin: string,
    images: nat,
    sender: string)

  datatype Option<T> = None | Some(value: T)
}
