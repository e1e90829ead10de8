/** The records the table is built from: a pod as the cluster returns it, reduced to the
    two fields the script reads (`pod.metadata.name` and `pod.spec.containers`), and the
    two-cell rows the script appends to its table. */
module PodModel {

  /** One entry of `pod.spec.containers`; only its image reference is read. */
  datatype Container = Container(image: string)

  /** A pod record: its name and its containers, in the order the cluster returned them. */
  datatype Pod = Pod(name: string, containers: seq<Container>)

  /** One table row, the list `[pod, images]` of the script. */
  datatype Row = Row(pod: string, images: string)

  /** The table `main` accumulates, one row after another. */
  type Table = seq<Row>
}
