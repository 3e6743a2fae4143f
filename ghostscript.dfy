/** The Ghostscript command line that the handler builds
    (cmd/pdfrasterizer/main.go). Running the binary is outside the model. */
module Ghostscript {
  import opened Wrappers

  const Binary := "./gs"
  const DeviceFlag := "-sDEVICE="

  /** The argument vector of `exec.Command("./gs", …)`, program name first.
      Ghostscript writes to `outputPath` and reads the PDF from stdin ("-"). */
  function Argv(outputPath: string, device: string): (argv: seq<string>)
    ensures |argv| == 11 && argv[0] == Binary
    ensures argv[3] == "-o" && argv[4] == outputPath
    ensures argv[8] == DeviceFlag + device
    ensures argv[10] == "-"
  {
    [Binary, "-dNOPAUSE", "-dBATCH", "-o", outputPath, "-dUseCropBox",
     "-r300", "-dDownScaleFactor=3", DeviceFlag + device, "-dJPEGQ=95", "-"]
  }

  /** Recognises the fixed template independently of `Argv`: eleven
      elements, every fixed one in its place, and the device flag at
      position 8. Yields the output path and the device. */
  function ParseArgv(argv: seq<string>): Option<(string, string)>
  {
    if |argv| == 11 && argv[0] == "./gs" && argv[1] == "-dNOPAUSE" && argv[2] == "-dBATCH"
       && argv[3] == "-o" && argv[5] == "-dUseCropBox" && argv[6] == "-r300"
       && argv[7] == "-dDownScaleFactor=3" && |argv[8]| >= 9 && argv[8][..9] == "-sDEVICE="
       && argv[9] == "-dJPEGQ=95" && argv[10] == "-"
    then Some((argv[4], argv[8][9..]))
    else None
  }

  /** Every command line the handler builds fits the template, and the
      template gives back the output path and device it was built from. */
  lemma ParseArgvInvertsArgv(outputPath: string, device: string)
    ensures ParseArgv(Argv(outputPath, device)) == Some((outputPath, device))
  {
    var argv := Argv(outputPath, device);
    assert argv[8][..9] == "-sDEVICE=" && argv[8][9..] == device;
  }

  /** Conversely, the template admits nothing but the command lines the
      handler builds. */
  lemma ArgvFromParse(argv: seq<string>)
    requires ParseArgv(argv).Some?
    ensures argv == Argv(ParseArgv(argv).value.0, ParseArgv(argv).value.1)
  {
    var rebuilt := Argv(argv[4], argv[8][9..]);
    assert argv[8] == argv[8][..9] + argv[8][9..];
    assert forall i :: 0 <= i < 11 ==> argv[i] == rebuilt[i];
  }

  /** The template is fixed: only the output path (position 4) and the
      device flag (position 8) vary, and each vector names one path and one
      device. */
  lemma OnlyPathAndDeviceVary(path1: string, device1: string, path2: string, device2: string)
    ensures forall i :: 0 <= i < 11 && i != 4 && i != 8 ==> Argv(path1, device1)[i] == Argv(path2, device2)[i]
    ensures Argv(path1, device1) == Argv(path2, device2) <==> path1 == path2 && device1 == device2
  {
    if Argv(path1, device1) == Argv(path2, device2) {
      ParseArgvInvertsArgv(path1, device1);
      ParseArgvInvertsArgv(path2, device2);
    }
  }
}
