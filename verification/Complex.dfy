/** Complex numbers over the reals. */
module Complex {

  datatype Cplx = Cplx(re: real, im: real) {
    function Mul(z: Cplx): Cplx {
      Cplx(re * z.re - im * z.im, im * z.re + re * z.im)
    }

    function Add(z: Cplx): Cplx {
      Cplx(re + z.re, im + z.im)
    }

    function Conj(): Cplx {
      Cplx(re, -im)
    }

    function NormSq(): real {
      re * re + im * im
    }
  }

  const ZERO := Cplx(0.0, 0.0)
  const ONE := Cplx(1.0, 0.0)
}
