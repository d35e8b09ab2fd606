/** The sensor readings and fusion results shared by the fusion algorithms. */
module Fusion {
  import opened Quaternions

  datatype Cart = Cart(x: real, y: real, z: real, timestamp: int)

  function Sum3(x: real, y: real, z: real): real {
    x * x + y * y + z * z
  }

  function SumSquares(v: Cart): real {
    Sum3(v.x, v.y, v.z)
  }

  class FusionData {
    var accel: Cart
    var gyro: Cart
    var gravity: Cart
    var linearAccel: Cart
    const gameRotation: QuatData

    constructor (gameRotation: QuatData)
      ensures this.gameRotation == gameRotation
    {
      this.gameRotation := gameRotation;
      accel, gyro := Cart(0.0, 0.0, 0.0, 0), Cart(0.0, 0.0, 0.0, 0);
      gravity, linearAccel := Cart(0.0, 0.0, 0.0, 0), Cart(0.0, 0.0, 0.0, 0);
    }
  }
}
