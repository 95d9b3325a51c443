/** The record yolo.h calls TensorInfo: one detection tensor of the network. F is the type of its floats. */
module YoloTensor {

  datatype TensorInfo<F> = TensorInfo(
    blobName: string,
    gridSizeX: nat,
    gridSizeY: nat,
    numBBoxes: nat,
    scaleXY: F,
    anchors: seq<F>,
    mask: seq<int>)
}
