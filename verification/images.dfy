/** `get_images_from_pod`: the image reference of every container of a pod, in order. */
module ImageExtraction {
  import opened PodModel

  /** The images of a container list: one per container, same order, nothing dropped. */
  function Images(cs: seq<Container>): (r: seq<string>)
    ensures |r| == |cs|
    ensures forall i :: 0 <= i < |cs| ==> r[i] == cs[i].image
  {
    if |cs| == 0 then [] else [cs[0].image] + Images(cs[1..])
  }

  /** The list comprehension over `pod.spec.containers`. */
  function ImagesOfPod(pod: Pod): (r: seq<string>)
    ensures |r| == |pod.containers|
    ensures forall i :: 0 <= i < |r| ==> r[i] == pod.containers[i].image
    ensures r == [] <==> pod.containers == []
  {
    Images(pod.containers)
  }

  /** Extraction works container by container: the images of a concatenation are the
      concatenation of the images, so no container's image moves past another's. */
  lemma {:induction false} ImagesConcat(a: seq<Container>, b: seq<Container>)
    ensures Images(a + b) == Images(a) + Images(b)
  {
    if |a| == 0 {
      assert a + b == b;
    } else {
      assert (a + b)[1..] == a[1..] + b;
      ImagesConcat(a[1..], b);
    }
  }
}
